/** Reading stored objects back into unmanaged ones. */
module GraphExport {
  import opened GraphStore
  import opened GraphTrees
  import opened Options

  function Exported(t: Tree): Option<Tree> {
    if Full(t) then Some(t) else None
  }

  /** `detach`: a new unmanaged object, property by property, and one for every link. The
      result is `None` when a null `T*` is met: the export then goes on in the row that
      holds the null, as if that were the target. */
  method Detach(s: Store, ghost rank: map<Key, nat>, k: Key) returns (t: Option<Tree>)
    requires Sinking(s.rows, rank) && k in rank
    ensures t == Exported(Shape(s.rows, rank, k))
    decreases rank[k], 2
  {
    var cells := s.rows[k].cells;
    ghost var branches := Shape(s.rows, rank, k).branches;
    var out: seq<Branch> := [];
    for i := 0 to |cells|
      invariant out == branches[..i] && forall j :: 0 <= j < i ==> FullBranch(branches[j])
    {
      CellShapesAt(s.rows, rank, cells, rank[k], i);
      var b := DetachCell(s, rank, cells[i], rank[k]);
      assert b.None? ==> !FullBranch(branches[i]);
      if b.None? { return None; }
      out := out + [b.value];
    }
    assert out == branches;
    t := Some(Tree(s.rows[k].cls, out));
  }

  method DetachCell(s: Store, ghost rank: map<Key, nat>, c: Cell, ghost bound: nat) returns (b: Option<Branch>)
    requires Sinking(s.rows, rank) && CellBelow(c, rank, bound)
    ensures var shape := CellShape(s.rows, rank, c, bound);
      b == if FullBranch(shape) then Some(shape) else None
    decreases bound, 1
  {
    match c
    case ScalarCell(v) =>
      b := Some(ScalarBranch(v));
    case ValuesCell(vs) =>
      b := Some(ValuesBranch(vs));
    case LinkCell(None) =>
      b := None;
    case LinkCell(Some(child)) =>
      var t := Detach(s, rank, child);
      b := if t.Some? then Some(Child(t)) else None;
    case LinksCell(ls) =>
      b := DetachList(s, rank, ls, bound);
  }

  /** The loop over a link list. */
  method DetachList(s: Store, ghost rank: map<Key, nat>, ls: seq<Key>, ghost bound: nat) returns (b: Option<Branch>)
    requires Sinking(s.rows, rank) && CellBelow(LinksCell(ls), rank, bound)
    ensures var shape := Children(ListShape(s.rows, rank, ls, bound));
      b == if FullBranch(shape) then Some(shape) else None
    decreases bound, 0
  {
    ghost var children := ListShape(s.rows, rank, ls, bound);
    var ret: seq<Tree> := [];
    for i := 0 to |ls|
      invariant ret == children[..i] && forall j :: 0 <= j < i ==> Full(children[j])
    {
      ListShapeAt(s.rows, rank, ls, bound, i);
      var v := Detach(s, rank, ls[i]);
      assert v.None? ==> !Full(children[i]);
      if v.None? { return None; }
      ret := ret + [v.value];
    }
    assert ret == children;
    b := Some(Children(ret));
  }
}
