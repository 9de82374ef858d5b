/** Importing an acyclic pointer structure of classes without primary keys, and reading it
    back. New rows get ascending keys and link only to later ones. */
module GraphImport {
  import opened GraphExport
  import opened GraphPaths
  import opened GraphStore
  import opened GraphTrees
  import opened Options

  predicate CellAbove(c: Cell, k: Key, hi: Key) {
    match c
    case LinkCell(l) => l.Some? ==> k < l.value < hi
    case LinksCell(ls) => forall i :: 0 <= i < |ls| ==> k < ls[i] < hi
    case _ => true
  }

  /** The rows from `lo` to `hi` exist and link only to later ones among them. */
  predicate Ascending(rows: Rows, lo: Key, hi: Key) {
    forall k :: lo <= k < hi ==> k in rows && forall i :: 0 <= i < |rows[k].cells| ==> CellAbove(rows[k].cells[i], k, hi)
  }

  function Distance(k: Key, hi: Key): nat {
    if k < hi then hi - k else 0
  }

  /** A row's rank is how far it is from the end. */
  function Ranks(lo: Key, hi: Key): map<Key, nat> {
    map k: Key | lo <= k < hi :: Distance(k, hi)
  }

  lemma AscendingSinks(rows: Rows, lo: Key, hi: Key)
    requires Ascending(rows, lo, hi)
    ensures Sinking(rows, Ranks(lo, hi))
  {
    forall k | k in Ranks(lo, hi) ensures k in rows && RowBelow(rows[k], Ranks(lo, hi), Ranks(lo, hi)[k]) {
      assert forall i :: 0 <= i < |rows[k].cells| ==> CellAbove(rows[k].cells[i], k, hi);
    }
  }

  /** The tree stored in row `k` when the rows end at `hi`. */
  ghost function TreeFrom(rows: Rows, hi: Key, k: Key): Tree
    requires k < hi && Ascending(rows, k, hi)
  {
    AscendingSinks(rows, k, hi);
    Shape(rows, Ranks(k, hi), k)
  }

  lemma CellsSink(cs: seq<Cell>, k: Key, hi: Key)
    requires k < hi && forall i :: 0 <= i < |cs| ==> CellAbove(cs[i], k, hi)
    ensures forall i :: 0 <= i < |cs| ==> CellBelow(cs[i], Ranks(k + 1, hi), hi - k)
  {
  }

  /** The trees below cells of row `k`. */
  ghost function BranchesFrom(rows: Rows, hi: Key, k: Key, cs: seq<Cell>): (bs: seq<Branch>)
    requires k < hi && Ascending(rows, k + 1, hi) && forall i :: 0 <= i < |cs| ==> CellAbove(cs[i], k, hi)
    ensures |bs| == |cs|
  {
    AscendingSinks(rows, k + 1, hi);
    CellsSink(cs, k, hi);
    CellShapes(rows, Ranks(k + 1, hi), cs, hi - k)
  }

  ghost function BranchFrom(rows: Rows, hi: Key, k: Key, c: Cell): Branch
    requires k < hi && Ascending(rows, k + 1, hi) && CellAbove(c, k, hi)
  {
    AscendingSinks(rows, k + 1, hi);
    CellShape(rows, Ranks(k + 1, hi), c, hi - k)
  }

  ghost function TreesFrom(rows: Rows, hi: Key, k: Key, ls: seq<Key>): (ts: seq<Tree>)
    requires k < hi && Ascending(rows, k + 1, hi) && CellAbove(LinksCell(ls), k, hi)
    ensures |ts| == |ls|
  {
    AscendingSinks(rows, k + 1, hi);
    ListShape(rows, Ranks(k + 1, hi), ls, hi - k)
  }

  /** The rows between `lo` and `hi` are as before. */
  predicate Unchanged(rows: Rows, rows': Rows, lo: Key, hi: Key) {
    forall j :: lo <= j < hi ==> j in rows && j in rows' && rows'[j] == rows[j]
  }

  /** The tree of a later row is the same seen from an earlier one. */
  lemma TreeFromBelow(rows: Rows, lo: Key, hi: Key, k: Key)
    requires lo <= k < hi && Ascending(rows, lo, hi)
    ensures Sinking(rows, Ranks(lo, hi)) && Shape(rows, Ranks(lo, hi), k) == TreeFrom(rows, hi, k)
  {
    AscendingSinks(rows, lo, hi);
    AscendingSinks(rows, k, hi);
    ShapeIsStable(rows, Ranks(k, hi), rows, Ranks(lo, hi), k);
  }

  lemma TreeOfBranches(rows: Rows, hi: Key, k: Key)
    requires k < hi && Ascending(rows, k, hi)
    ensures TreeFrom(rows, hi, k) == Tree(rows[k].cls, BranchesFrom(rows, hi, k, rows[k].cells))
  {
    AscendingSinks(rows, k, hi);
    AscendingSinks(rows, k + 1, hi);
    assert RowBelow(rows[k], Ranks(k, hi), hi - k);
    assert forall i :: 0 <= i < |rows[k].cells| ==> CellAbove(rows[k].cells[i], k, hi);
    CellsSink(rows[k].cells, k, hi);
    CellShapesAreStable(rows, Ranks(k + 1, hi), rows, Ranks(k, hi), rows[k].cells, hi - k, hi - k);
  }

  /** Rows written later do not change the trees stored in what is there already. */
  lemma TreeStays(rows: Rows, hi: Key, rows': Rows, hi': Key, k: Key)
    requires k < hi <= hi' && Ascending(rows, k, hi) && Ascending(rows', k, hi') && Unchanged(rows, rows', k, hi)
    ensures TreeFrom(rows', hi', k) == TreeFrom(rows, hi, k)
  {
    AscendingSinks(rows, k, hi);
    AscendingSinks(rows', k, hi');
    ShapeIsStable(rows, Ranks(k, hi), rows', Ranks(k, hi'), k);
  }

  lemma BranchesStay(rows: Rows, hi: Key, rows': Rows, hi': Key, k: Key, cs: seq<Cell>)
    requires k < hi <= hi' && Ascending(rows, k + 1, hi) && Ascending(rows', k + 1, hi') && Unchanged(rows, rows', k + 1, hi)
    requires forall i :: 0 <= i < |cs| ==> CellAbove(cs[i], k, hi) && CellAbove(cs[i], k, hi')
    ensures BranchesFrom(rows', hi', k, cs) == BranchesFrom(rows, hi, k, cs)
  {
    AscendingSinks(rows, k + 1, hi);
    AscendingSinks(rows', k + 1, hi');
    CellsSink(cs, k, hi);
    CellsSink(cs, k, hi');
    CellShapesAreStable(rows, Ranks(k + 1, hi), rows', Ranks(k + 1, hi'), cs, hi - k, hi' - k);
  }

  lemma TreesStay(rows: Rows, hi: Key, rows': Rows, hi': Key, k: Key, ls: seq<Key>)
    requires k < hi <= hi' && Ascending(rows, k + 1, hi) && Ascending(rows', k + 1, hi') && Unchanged(rows, rows', k + 1, hi)
    requires CellAbove(LinksCell(ls), k, hi) && CellAbove(LinksCell(ls), k, hi')
    ensures TreesFrom(rows', hi', k, ls) == TreesFrom(rows, hi, k, ls)
  {
    BranchesStay(rows, hi, rows', hi', k, [LinksCell(ls)]);
    OneBranch(rows, hi, k, ls);
    OneBranch(rows', hi', k, ls);
  }

  /** A list as the only property. */
  lemma OneBranch(rows: Rows, hi: Key, k: Key, ls: seq<Key>)
    requires k < hi && Ascending(rows, k + 1, hi) && CellAbove(LinksCell(ls), k, hi)
    ensures BranchesFrom(rows, hi, k, [LinksCell(ls)]) == [Children(TreesFrom(rows, hi, k, ls))]
  {
    AscendingSinks(rows, k + 1, hi);
    CellsSink([LinksCell(ls)], k, hi);
    CellShapesAt(rows, Ranks(k + 1, hi), [LinksCell(ls)], hi - k, 0);
  }

  /** The tree a link leads to. */
  lemma LinkedTree(rows: Rows, hi: Key, k: Key, child: Key)
    requires k < child < hi && Ascending(rows, k + 1, hi)
    ensures BranchFrom(rows, hi, k, LinkCell(Some(child))) == Child(Some(TreeFrom(rows, hi, child)))
  {
    TreeFromBelow(rows, k + 1, hi, child);
  }

  lemma AppendedTree(rows: Rows, hi: Key, k: Key, ls: seq<Key>, child: Key)
    requires k < child < hi && Ascending(rows, k + 1, hi) && CellAbove(LinksCell(ls), k, hi)
    requires CellAbove(LinksCell(ls + [child]), k, hi)
    ensures TreesFrom(rows, hi, k, ls + [child]) == TreesFrom(rows, hi, k, ls) + [TreeFrom(rows, hi, child)]
  {
    TreeFromBelow(rows, k + 1, hi, child);
    assert (ls + [child])[..|ls|] == ls;
  }

  // ----- import -----

  ghost predicate Importable(s: Store, g: Memory, rank: map<Ptr, nat>)
    reads s
  {
    && s.Valid() && Acyclic(g, rank)
    && forall p :: p in g ==> StructTyped(s.schema, g, g[p])
  }

  /** Only row `k` and rows that did not exist before may differ. */
  ghost predicate OnlyRow(before: Rows, after: Rows, k: Key, firstNew: Key) {
    && (forall j :: j in before && j != k ==> j in after && after[j] == before[j])
    && (forall j :: j in after ==> j in before || j >= firstNew)
  }

  lemma OnlyRowTwice(before: Rows, middle: Rows, after: Rows, k: Key, firstNew: Key, later: Key)
    requires OnlyRow(before, middle, k, firstNew) && OnlyRow(middle, after, k, later) && firstNew <= later
    ensures OnlyRow(before, after, k, firstNew)
  {
  }

  /** New rows behind an ascending stretch, and a new cell in its first row, keep it ascending. */
  lemma AscendingExtends(before: Rows, hi: Key, after: Rows, next: Key, k: Key, i: nat, c: Cell)
    requires k < hi <= next && Ascending(before, k, hi) && Ascending(after, hi, next) && Unchanged(before, after, k + 1, hi)
    requires i < |before[k].cells| && k in after && after[k] == WithCell(before[k], i, c) && CellAbove(c, k, next)
    ensures Ascending(after, k, next)
  {
    forall j | k <= j < hi
      ensures j in after && forall m :: 0 <= m < |after[j].cells| ==> CellAbove(after[j].cells[m], j, next)
    {
      assert forall m :: 0 <= m < |before[j].cells| ==> CellAbove(before[j].cells[m], j, hi);
    }
  }

  // ----- how new rows hang together -----

  /** A pointer path leads to the row. */
  ghost predicate OnPath(g: Memory, p: Ptr, rows: Rows, k: Key, j: Key) {
    exists path :: Reached(g, p, path).Some? && RowAlong(g, p, rows, k, path) == Some(j)
  }

  lemma AllOnPath(g: Memory, rank: map<Ptr, nat>, p: Ptr, rows: Rows, k: Key, hi: Key)
    requires Acyclic(g, rank) && p in g && k < hi && Ascending(rows, k, hi) && Led(rows, k, k + 1, hi)
    requires RowsShow(g, p, rows, k)
    ensures forall j :: k <= j < hi ==> OnPath(g, p, rows, k, j)
  {
    forall j | k <= j < hi ensures OnPath(g, p, rows, k, j) {
      RowOnPath(g, p, rows, k, hi, j);
    }
  }

  lemma {:induction false} RowOnPath(g: Memory, p: Ptr, rows: Rows, k: Key, hi: Key, j: Key)
    requires k <= j < hi && Led(rows, k, k + 1, hi) && RowsShow(g, p, rows, k)
    ensures OnPath(g, p, rows, k, j)
    decreases j
  {
    if j == k {
      assert RowAlong(g, p, rows, k, []) == Some(k);
    } else {
      assert LedAt(rows, k, k + 1, j);
      var i :| (i == k || k + 1 <= i < j) && i in rows && LinksTo(rows[i], j);
      RowOnPath(g, p, rows, k, hi, i);
      var path :| Reached(g, p, path).Some? && RowAlong(g, p, rows, k, path) == Some(i);
      assert RowsShowAt(g, p, rows, k, path);
      var h := HopTo(g, Reached(g, p, path).value, rows[i], j);
      LongerPath(g, p, rows, k, path, h);
    }
  }

  /** Where a row shows an object, each of its links is one of the object's pointers. */
  lemma HopTo(g: Memory, q: Ptr, row: Row, j: Key) returns (h: Hop)
    requires q in g && RowShows(row, g[q]) && LinksTo(row, j)
    ensures HopFrom(g, q, h).Some? && RowHop(row, g[q], h) == Some(j)
  {
    var m :| 0 <= m < |row.cells| && CellLinksTo(row.cells[m], j);
    assert CellShows(row.cells[m], g[q].fields[m]);
    h := Hop(m, 0);
    if row.cells[m].LinksCell? {
      var n :| 0 <= n < |row.cells[m].links| && row.cells[m].links[n] == j;
      var e := EntryAt(g[q].fields[m].ps, n);
      h := Hop(m, e);
    }
  }

  lemma {:induction false} LongerPath(g: Memory, p: Ptr, rows: Rows, k: Key, path: PointerPath, h: Hop)
    requires Reached(g, p, path).Some? && RowAlong(g, p, rows, k, path).Some?
    ensures Reached(g, p, path + [h]) == HopFrom(g, Reached(g, p, path).value, h)
    ensures var q, i := Reached(g, p, path).value, RowAlong(g, p, rows, k, path).value;
      q in g && i in rows && HopFrom(g, q, h).Some? ==>
      RowAlong(g, p, rows, k, path + [h]) == RowHop(rows[i], g[q], h)
    decreases |path|
  {
    if path == [] {
      assert [h][1..] == [] && [] + [h] == [h];
    } else {
      assert (path + [h])[1..] == path[1..] + [h];
      var q, i := HopFrom(g, p, path[0]).value, RowHop(rows[k], g[p], path[0]).value;
      LongerPath(g, q, rows, i, path[1..], h);
    }
  }

  predicate CellLinksTo(c: Cell, j: Key) {
    c == LinkCell(Some(j)) || (c.LinksCell? && j in c.links)
  }

  predicate LinksTo(row: Row, j: Key) {
    exists i :: 0 <= i < |row.cells| && CellLinksTo(row.cells[i], j)
  }

  ghost predicate LedAt(rows: Rows, k: Key, lo: Key, j: Key) {
    exists i :: (i == k || lo <= i < j) && i in rows && LinksTo(rows[i], j)
  }

  /** Row `k`, or an earlier one of the rows from `lo` on, links to each of these rows. */
  ghost predicate Led(rows: Rows, k: Key, lo: Key, hi: Key) {
    forall j :: lo <= j < hi ==> LedAt(rows, k, lo, j)
  }

  ghost predicate KeepsLinks(row: Row, after: Row) {
    forall j :: LinksTo(row, j) ==> LinksTo(after, j)
  }

  /** More rows, led to from row `k` or among themselves. */
  lemma LedFurther(before: Rows, hi: Key, after: Rows, next: Key, k: Key, lo: Key)
    requires k < lo <= hi && Led(before, k, lo, hi) && Led(after, k, hi, next) && Unchanged(before, after, lo, hi)
    requires k in before && k in after && KeepsLinks(before[k], after[k])
    ensures Led(after, k, lo, next)
  {
    forall j | lo <= j < next ensures LedAt(after, k, lo, j) {
      if j < hi {
        assert LedAt(before, k, lo, j);
      } else {
        assert LedAt(after, k, hi, j);
      }
    }
  }

  /** A child and what hangs from it. */
  lemma LedByChild(rows: Rows, k: Key, child: Key, next: Key)
    requires k < child && k in rows && LinksTo(rows[k], child) && Led(rows, child, child + 1, next)
    ensures Led(rows, k, child, next)
  {
    forall j | child <= j < next ensures LedAt(rows, k, child, j) {
      if j > child {
        assert LedAt(rows, child, child + 1, j);
      }
    }
  }

  lemma LinksKept(row: Row, i: nat, c: Cell)
    requires i < |row.cells| && forall j :: CellLinksTo(row.cells[i], j) ==> CellLinksTo(c, j)
    ensures KeepsLinks(row, WithCell(row, i, c))
  {
    forall j | LinksTo(row, j) ensures LinksTo(WithCell(row, i, c), j) {
      var m :| 0 <= m < |row.cells| && CellLinksTo(row.cells[m], j);
      assert CellLinksTo(WithCell(row, i, c).cells[m], j);
    }
  }

  /** `db::add`: a new row for the object, then one accessor per property. Along every
      pointer path the rows hold what the objects hold; there are no other new rows, and no
      row that was there before changes. */
  method Add(s: Store, g: Memory, ghost rank: map<Ptr, nat>, p: Ptr) returns (k: Key)
    requires Importable(s, g, rank) && p in g
    modifies s
    ensures s.Valid() && k == old(s.next) && OnlyRow(old(s.rows), s.rows, k, k) && k !in old(s.rows)
    ensures RowsShow(g, p, s.rows, k)
    ensures forall j :: k <= j < s.next ==> OnPath(g, p, s.rows, k, j)
    ensures k < s.next && Ascending(s.rows, k, s.next)
    ensures TreeFrom(s.rows, s.next, k) == Unfold(g, rank, p)
    ensures s.next == k + Nodes(Unfold(g, rank, p))
  {
    k := Import(s, g, rank, p);
    AscendingSinks(s.rows, k, s.next);
    ShapeShows(g, rank, p, s.rows, Ranks(k, s.next), k);
    AllOnPath(g, rank, p, s.rows, k, s.next);
  }

  method Import(s: Store, g: Memory, ghost rank: map<Ptr, nat>, p: Ptr) returns (k: Key)
    requires Importable(s, g, rank) && p in g
    modifies s
    ensures s.Valid() && k == old(s.next) && OnlyRow(old(s.rows), s.rows, k, k) && k !in old(s.rows)
    ensures k < s.next && Ascending(s.rows, k, s.next) && Led(s.rows, k, k + 1, s.next)
    ensures TreeFrom(s.rows, s.next, k) == Unfold(g, rank, p)
    ensures s.next == k + Nodes(Unfold(g, rank, p))
    decreases rank[p], 4
  {
    k := s.CreateObject(g[p].cls);
    Fill(s, g, rank, p, k);
  }

  /** Writes every property of an object into its still empty row, in schema order. */
  method Fill(s: Store, g: Memory, ghost rank: map<Ptr, nat>, p: Ptr, k: Key)
    requires Importable(s, g, rank) && p in g
    requires k in s.rows && s.next == k + 1 && s.rows[k] == BlankRow(s.schema, g[p].cls, None)
    modifies s
    ensures s.Valid() && OnlyRow(old(s.rows), s.rows, k, k + 1)
    ensures k < s.next && Ascending(s.rows, k, s.next) && Led(s.rows, k, k + 1, s.next)
    ensures TreeFrom(s.rows, s.next, k) == Unfold(g, rank, p)
    ensures s.next == k + Nodes(Unfold(g, rank, p))
    decreases rank[p], 3
  {
    for i := 0 to |g[p].fields|
      invariant s.Valid() && Written(s.schema, old(s.rows), s.rows, s.next, g, rank, p, k, i)
    {
      FillNext(s, old(s.rows), g, rank, p, k, i);
    }
    AllWritten(s.schema, old(s.rows), s.rows, s.next, g, rank, p, k);
  }

  /** The rows once the first `n` properties of `p` are in row `k`. */
  ghost predicate Written(schema: Schema, before: Rows, rows: Rows, next: Key,
      g: Memory, rank: map<Ptr, nat>, p: Ptr, k: Key, n: nat)
    requires Acyclic(g, rank) && p in g && StructTyped(schema, g, g[p]) && n <= |g[p].fields|
  {
    && OnlyRow(before, rows, k, k + 1) && k < next && Ascending(rows, k, next) && Led(rows, k, k + 1, next)
    && rows[k].cls == g[p].cls && |rows[k].cells| == |g[p].fields|
    && (forall j :: n <= j < |g[p].fields| ==> rows[k].cells[j] == Blank(schema[g[p].cls][j]))
    && BranchesFrom(rows, next, k, rows[k].cells[..n]) == UnfoldFields(g, rank, g[p].fields[..n], rank[p])
    && next == k + 1 + BranchesNodes(UnfoldFields(g, rank, g[p].fields[..n], rank[p]))
  }

  /** The accessor of property `i` takes `Fill` one step further. */
  method FillNext(s: Store, ghost before: Rows, g: Memory, ghost rank: map<Ptr, nat>, p: Ptr, k: Key, i: nat)
    requires Importable(s, g, rank) && p in g && i < |g[p].fields|
    requires Written(s.schema, before, s.rows, s.next, g, rank, p, k, i)
    modifies s
    ensures s.Valid() && Written(s.schema, before, s.rows, s.next, g, rank, p, k, i + 1)
    decreases rank[p], 2
  {
    ghost var rows, next := s.rows, s.next;
    SetField(s, g, rank, k, i, g[p].fields[i], rank[p]);
    WrittenNext(s.schema, before, rows, next, s.rows, s.next, g, rank, p, k, i);
  }

  lemma WrittenNext(schema: Schema, before: Rows, rows: Rows, hi: Key, after: Rows, next: Key,
      g: Memory, rank: map<Ptr, nat>, p: Ptr, k: Key, n: nat)
    requires Acyclic(g, rank) && p in g && StructTyped(schema, g, g[p]) && n < |g[p].fields|
    requires Written(schema, before, rows, hi, g, rank, p, k, n)
    requires OnlyRow(rows, after, k, hi) && Unchanged(rows, after, k + 1, hi) && hi <= next && Ascending(after, k, next)
    requires n < |after[k].cells| && after[k] == WithCell(rows[k], n, after[k].cells[n])
    requires BranchFrom(after, next, k, after[k].cells[n]) == UnfoldField(g, rank, g[p].fields[n], rank[p])
    requires next == hi + BranchNodes(UnfoldField(g, rank, g[p].fields[n], rank[p])) && Led(after, k, hi, next)
    ensures Written(schema, before, after, next, g, rank, p, k, n + 1)
  {
    LinksKept(rows[k], n, after[k].cells[n]);
    LedFurther(rows, hi, after, next, k, k + 1);
    OnlyRowTwice(before, rows, after, k, k + 1, hi);
    CellAdded(rows, hi, after, next, k, n);
    FieldAdded(g, rank, g[p].fields, n, rank[p]);
  }

  lemma AllWritten(schema: Schema, before: Rows, rows: Rows, next: Key, g: Memory, rank: map<Ptr, nat>, p: Ptr, k: Key)
    requires Acyclic(g, rank) && p in g && StructTyped(schema, g, g[p])
    requires Written(schema, before, rows, next, g, rank, p, k, |g[p].fields|)
    ensures TreeFrom(rows, next, k) == Unfold(g, rank, p) && next == k + Nodes(Unfold(g, rank, p))
  {
    assert g[p].fields[..|g[p].fields|] == g[p].fields;
    assert rows[k].cells[..|g[p].fields|] == rows[k].cells;
    TreeOfBranches(rows, next, k);
  }

  /** One more cell of a row: the shapes before it survive the write. */
  lemma CellAdded(before: Rows, hi: Key, after: Rows, next: Key, k: Key, n: nat)
    requires k < hi <= next && Ascending(before, k, hi) && Ascending(after, k, next)
    requires Unchanged(before, after, k + 1, hi) && n < |before[k].cells|
    requires n < |after[k].cells| && after[k] == WithCell(before[k], n, after[k].cells[n])
    ensures BranchesFrom(after, next, k, after[k].cells[..n + 1])
            == BranchesFrom(before, hi, k, before[k].cells[..n]) + [BranchFrom(after, next, k, after[k].cells[n])]
  {
    assert after[k].cells[..n] == before[k].cells[..n];
    assert after[k].cells[..n + 1][..n] == after[k].cells[..n];
    BranchesStay(before, hi, after, next, k, before[k].cells[..n]);
  }

  lemma FieldAdded(g: Memory, rank: map<Ptr, nat>, fs: seq<Field>, n: nat, bound: nat)
    requires Acyclic(g, rank) && n < |fs| && forall i :: 0 <= i < |fs| ==> FieldBelow(g, rank, fs[i], bound)
    ensures var init, more := UnfoldFields(g, rank, fs[..n], bound), UnfoldFields(g, rank, fs[..n + 1], bound);
      && more == init + [UnfoldField(g, rank, fs[n], bound)]
      && BranchesNodes(more) == BranchesNodes(init) + BranchNodes(UnfoldField(g, rank, fs[n], bound))
  {
    assert fs[..n + 1][..n] == fs[..n];
    var init := UnfoldFields(g, rank, fs[..n], bound);
    assert (init + [UnfoldField(g, rank, fs[n], bound)])[..n] == init;
  }

  /** The accessor of one property. */
  method SetField(s: Store, g: Memory, ghost rank: map<Ptr, nat>, k: Key, i: nat, f: Field, ghost bound: nat)
    requires Importable(s, g, rank) && FieldBelow(g, rank, f, bound)
    requires k < s.next && Ascending(s.rows, k, s.next) && i < |s.rows[k].cells|
    requires FieldTyped(g, f, s.schema[s.rows[k].cls][i]) && s.rows[k].cells[i] == Blank(s.schema[s.rows[k].cls][i])
    modifies s
    ensures s.Valid() && OnlyRow(old(s.rows), s.rows, k, old(s.next)) && Unchanged(old(s.rows), s.rows, k + 1, old(s.next))
    ensures old(s.next) <= s.next && Ascending(s.rows, k, s.next)
    ensures i < |s.rows[k].cells| && s.rows[k] == WithCell(old(s.rows)[k], i, s.rows[k].cells[i])
    ensures Led(s.rows, k, old(s.next), s.next)
    ensures BranchFrom(s.rows, s.next, k, s.rows[k].cells[i]) == UnfoldField(g, rank, f, bound)
    ensures s.next == old(s.next) + BranchNodes(UnfoldField(g, rank, f, bound))
    decreases bound, 1
  {
    match f
    case Scalar(v) =>
      s.Write(k, i, ScalarCell(v));
    case Values(vs) =>
      s.InsertValues(k, i, vs);
      assert vs + [] == vs;
    case Pointer(p) =>
      if p.Some? {
        ghost var child := s.next;
        SetLink(s, g, rank, k, i, p.value, bound);
        LinkedTree(s.rows, s.next, k, child);
      }
    case Pointers(ps) =>
      SetList(s, g, rank, k, i, ps, bound);
  }

  /** `accessor<T*>`: the new row's key is stored before the row is filled. */
  method SetLink(s: Store, g: Memory, ghost rank: map<Ptr, nat>, k: Key, i: nat, p: Ptr, ghost bound: nat)
    requires Importable(s, g, rank) && Below(g, rank, p, bound)
    requires k < s.next && Ascending(s.rows, k, s.next)
    requires i < |s.rows[k].cells| && s.schema[s.rows[k].cls][i] == LinkType(g[p].cls)
    modifies s
    ensures s.Valid() && OnlyRow(old(s.rows), s.rows, k, old(s.next)) && Unchanged(old(s.rows), s.rows, k + 1, old(s.next))
    ensures old(s.next) < s.next && Ascending(s.rows, k, s.next)
    ensures s.rows[k] == WithCell(old(s.rows)[k], i, LinkCell(Some(old(s.next))))
    ensures Led(s.rows, k, old(s.next), s.next)
    ensures TreeFrom(s.rows, s.next, old(s.next)) == Unfold(g, rank, p)
    ensures s.next == old(s.next) + Nodes(Unfold(g, rank, p))
    decreases bound, 0
  {
    ghost var before := s.rows;
    var child := StoreLink(s, k, i, g[p].cls);
    ghost var linked := s.rows;
    Fill(s, g, rank, p, child);
    LinkFilled(before, child, linked, s.rows, s.next, k, i);
    LinkLeads(s.rows, k, i, child, s.next);
  }

  /** The two writes before the recursion. */
  method StoreLink(s: Store, k: Key, i: nat, cls: Class) returns (child: Key)
    requires s.Valid() && k in s.rows && cls in s.schema
    requires i < |s.rows[k].cells| && s.schema[s.rows[k].cls][i] == LinkType(cls)
    modifies s
    ensures s.Valid() && child == old(s.next) && s.next == child + 1 && child !in old(s.rows) && k != child
    ensures s.rows
            == old(s.rows)[child := BlankRow(s.schema, cls, None)][k := WithCell(old(s.rows)[k], i, LinkCell(Some(child)))]
  {
    child := s.CreateObject(cls);
    s.Write(k, i, LinkCell(Some(child)));
  }

  lemma LinkLeads(rows: Rows, k: Key, i: nat, child: Key, next: Key)
    requires k < child && k in rows && i < |rows[k].cells| && CellLinksTo(rows[k].cells[i], child)
    requires Led(rows, child, child + 1, next)
    ensures Led(rows, k, child, next)
  {
    assert LinksTo(rows[k], child);
    LedByChild(rows, k, child, next);
  }

  lemma LinkFilled(before: Rows, child: Key, linked: Rows, after: Rows, next: Key, k: Key, i: nat)
    requires k < child < next && Ascending(before, k, child) && child !in before
    requires linked.Keys == before.Keys + {child} && i < |before[k].cells|
    requires forall j :: j in before && j != k ==> linked[j] == before[j]
    requires linked[k] == WithCell(before[k], i, LinkCell(Some(child)))
    requires OnlyRow(linked, after, child, child + 1) && Ascending(after, child, next)
    ensures OnlyRow(before, after, k, child) && Unchanged(before, after, k + 1, child)
    ensures Ascending(after, k, next) && after[k] == linked[k]
  {
    AscendingExtends(before, child, after, next, k, i, LinkCell(Some(child)));
  }

  /** `accessor<std::vector<T*>>`: null entries are skipped. */
  method SetList(s: Store, g: Memory, ghost rank: map<Ptr, nat>, k: Key, i: nat, ps: seq<Option<Ptr>>, ghost bound: nat)
    requires Importable(s, g, rank) && FieldBelow(g, rank, Pointers(ps), bound)
    requires k < s.next && Ascending(s.rows, k, s.next)
    requires i < |s.rows[k].cells| && s.rows[k].cells[i] == LinksCell([])
    requires FieldTyped(g, Pointers(ps), s.schema[s.rows[k].cls][i])
    modifies s
    ensures s.Valid() && OnlyRow(old(s.rows), s.rows, k, old(s.next)) && Unchanged(old(s.rows), s.rows, k + 1, old(s.next))
    ensures old(s.next) <= s.next && Ascending(s.rows, k, s.next)
    ensures i < |s.rows[k].cells| && s.rows[k] == WithCell(old(s.rows)[k], i, s.rows[k].cells[i])
    ensures Led(s.rows, k, old(s.next), s.next)
    ensures BranchFrom(s.rows, s.next, k, s.rows[k].cells[i]) == Children(UnfoldList(g, rank, ps, bound))
    ensures s.next == old(s.next) + ListNodes(UnfoldList(g, rank, ps, bound))
    decreases bound, 0, |ps|
  {
    ghost var start, first := s.rows, s.next;
    var links: seq<Key> := [];
    for n := 0 to |ps|
      invariant s.Valid() && first <= s.next && Ascending(s.rows, k, s.next)
      invariant Led(s.rows, k, first, s.next)
      invariant Appended(start, s.rows, k, i, first, links) && CellAbove(LinksCell(links), k, s.next)
      invariant TreesFrom(s.rows, s.next, k, links) == UnfoldList(g, rank, ps[..n], bound)
      invariant s.next == first + ListNodes(UnfoldList(g, rank, ps[..n], bound))
    {
      UnfoldNext(g, rank, ps, n, bound);
      if ps[n].Some? {
        ghost var rows, next := s.rows, s.next;
        var child := AppendChild(s, g, rank, k, i, ps[n].value, bound, links);
        AppendedTwice(start, rows, s.rows, k, i, first, next, links, links + [child]);
        AppendedLeads(rows, next, s.rows, s.next, k, i, first, links, child);
        links := links + [child];
      }
    }
    assert ps[..|ps|] == ps;
  }

  /** Between the two states, only the list in cell `i` of row `k` was written, and rows
      from `firstNew` on created. */
  ghost predicate Appended(before: Rows, after: Rows, k: Key, i: nat, firstNew: Key, links: seq<Key>) {
    && k in before && i < |before[k].cells|
    && OnlyRow(before, after, k, firstNew)
    && k in after && after[k] == WithCell(before[k], i, LinksCell(links))
  }

  lemma AppendedTwice(before: Rows, middle: Rows, after: Rows, k: Key, i: nat, first: Key, later: Key,
      links: seq<Key>, more: seq<Key>)
    requires Appended(before, middle, k, i, first, links) && Appended(middle, after, k, i, later, more) && first <= later
    ensures Appended(before, after, k, i, first, more)
  {
    OnlyRowTwice(before, middle, after, k, first, later);
  }

  lemma AppendedLeads(before: Rows, hi: Key, after: Rows, next: Key, k: Key, i: nat, first: Key, links: seq<Key>, child: Key)
    requires k < first <= hi && Led(before, k, first, hi) && Led(after, k, hi, next)
    requires Appended(before, after, k, i, hi, links + [child]) && before[k].cells[i] == LinksCell(links)
    requires forall j :: first <= j < hi ==> j in before
    ensures Led(after, k, first, next)
  {
    LinksKept(before[k], i, LinksCell(links + [child]));
    LedFurther(before, hi, after, next, k, first);
  }

  /** One more entry of a pointer list. */
  lemma UnfoldNext(g: Memory, rank: map<Ptr, nat>, ps: seq<Option<Ptr>>, n: nat, bound: nat)
    requires Acyclic(g, rank) && FieldBelow(g, rank, Pointers(ps), bound) && n < |ps|
    ensures var init, more := UnfoldList(g, rank, ps[..n], bound), UnfoldList(g, rank, ps[..n + 1], bound);
      if ps[n].None? then more == init
      else more == init + [Unfold(g, rank, ps[n].value)]
           && ListNodes(more) == ListNodes(init) + Nodes(Unfold(g, rank, ps[n].value))
  {
    assert ps[..n + 1][..n] == ps[..n];
    if ps[n].Some? {
      var init := UnfoldList(g, rank, ps[..n], bound);
      assert (init + [Unfold(g, rank, ps[n].value)])[..|init|] == init;
    }
  }

  /** One turn of the loop: the key is appended only once its row is complete. */
  method AppendChild(s: Store, g: Memory, ghost rank: map<Ptr, nat>, k: Key, i: nat, p: Ptr, ghost bound: nat,
      links: seq<Key>)
    returns (child: Key)
    requires Importable(s, g, rank) && Below(g, rank, p, bound)
    requires k < s.next && Ascending(s.rows, k, s.next)
    requires i < |s.rows[k].cells| && s.rows[k].cells[i] == LinksCell(links)
    requires s.schema[s.rows[k].cls][i] == LinksType(g[p].cls)
    modifies s
    ensures s.Valid() && child == old(s.next) < s.next
    ensures Appended(old(s.rows), s.rows, k, i, child, links + [child])
    ensures Ascending(s.rows, k, s.next) && Led(s.rows, k, child, s.next)
    ensures CellAbove(LinksCell(links), k, child) && CellAbove(LinksCell(links + [child]), k, s.next)
    ensures TreesFrom(s.rows, s.next, k, links + [child])
            == TreesFrom(old(s.rows), child, k, links) + [Unfold(g, rank, p)]
    ensures s.next == child + Nodes(Unfold(g, rank, p))
    decreases bound, 0, 0
  {
    ghost var before := s.rows;
    child := Import(s, g, rank, p);
    ghost var added := s.rows;
    s.Write(k, i, LinksCell(links + [child]));
    AppendedShape(before, child, added, s.rows, s.next, k, i, links);
    AppendedChildLeads(added, s.rows, k, i, child, s.next);
  }

  lemma AppendedChildLeads(added: Rows, rows: Rows, k: Key, i: nat, child: Key, next: Key)
    requires k < child && Led(added, child, child + 1, next) && k in rows && i < |rows[k].cells|
    requires CellLinksTo(rows[k].cells[i], child) && forall j :: j in added && j != k ==> j in rows && rows[j] == added[j]
    ensures Led(rows, k, child, next)
  {
    var lo := child + 1;
    forall j | lo <= j < next ensures LedAt(rows, child, lo, j) {
      assert LedAt(added, child, lo, j);
    }
    LinkLeads(rows, k, i, child, next);
  }

  /** Appending the key of a new row appends its shape. */
  lemma AppendedShape(before: Rows, hi: Key, added: Rows, rows: Rows, next: Key, k: Key, i: nat, links: seq<Key>)
    requires k < hi < next && Ascending(before, k, hi) && Ascending(added, hi, next)
    requires OnlyRow(before, added, hi, hi) && hi !in before
    requires i < |before[k].cells| && before[k].cells[i] == LinksCell(links)
    requires rows == added[k := WithCell(before[k], i, LinksCell(links + [hi]))]
    ensures Ascending(rows, k, next) && OnlyRow(before, rows, k, hi)
    ensures CellAbove(LinksCell(links), k, hi) && CellAbove(LinksCell(links + [hi]), k, next)
    ensures TreesFrom(rows, next, k, links + [hi]) == TreesFrom(before, hi, k, links) + [TreeFrom(added, next, hi)]
  {
    assert CellAbove(before[k].cells[i], k, hi);
    AscendingExtends(before, hi, rows, next, k, i, LinksCell(links + [hi]));
    TreesStay(before, hi, rows, next, k, links);
    TreeStays(added, next, rows, next, hi);
    AppendedTree(rows, next, k, links, hi);
  }

  /** The round trip: adding an object and detaching it gives back its own tree, showing
      along every pointer path the values of the object reached, whatever the store held
      before and however the structure shares its parts, if and only if no `T*` reached is
      null. */
  method AddThenDetach(s: Store, g: Memory, ghost rank: map<Ptr, nat>, p: Ptr) returns (k: Key, t: Option<Tree>)
    requires Importable(s, g, rank) && p in g
    modifies s
    ensures t == Some(Unfold(g, rank, p)) <==> Full(Unfold(g, rank, p))
    ensures t == None <==> !Full(Unfold(g, rank, p))
    ensures t.Some? <==> NoNullReached(g, p)
    ensures t.Some? ==> TreeShows(g, p, t.value)
    ensures s.Valid() && forall j :: j in old(s.rows) ==> j in s.rows && s.rows[j] == old(s.rows)[j]
  {
    k := Add(s, g, rank, p);
    AscendingSinks(s.rows, k, s.next);
    t := Detach(s, Ranks(k, s.next), k);
    FullIsNoNull(g, rank, p);
    UnfoldShows(g, rank, p);
  }
}
