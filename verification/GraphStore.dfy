/** Core's row store, reduced to what import and export use, and the unmanaged
    pointer structures they copy to and from it. */
module GraphStore {
  import opened Options

  type Class = nat
  type Key = nat
  type Ptr = nat

  /** The property types with an accessor of their own: a scalar, a list of values,
      `T*` and `std::vector<T*>`. */
  datatype FieldType = ScalarType | ValuesType | LinkType(target: Class) | LinksType(target: Class)

  type Schema = map<Class, seq<FieldType>>

  /** A property of an unmanaged object. */
  datatype Field = Scalar(v: int) | Values(vs: seq<int>) | Pointer(p: Option<Ptr>) | Pointers(ps: seq<Option<Ptr>>)

  datatype Struct = Struct(cls: Class, fields: seq<Field>)

  type Memory = map<Ptr, Struct>

  /** A stored property. */
  datatype Cell = ScalarCell(v: int) | ValuesCell(vs: seq<int>) | LinkCell(link: Option<Key>) | LinksCell(links: seq<Key>)

  /** `pk` is the primary key, for rows of classes that have one. */
  datatype Row = Row(cls: Class, pk: Option<int>, cells: seq<Cell>)

  type Rows = map<Key, Row>

  function Blank(ft: FieldType): Cell {
    match ft
    case ScalarType => ScalarCell(0)
    case ValuesType => ValuesCell([])
    case LinkType(_) => LinkCell(None)
    case LinksType(_) => LinksCell([])
  }

  function BlankRow(schema: Schema, cls: Class, pk: Option<int>): Row
    requires cls in schema
  {
    Row(cls, pk, seq(|schema[cls]|, i requires 0 <= i < |schema[cls]| => Blank(schema[cls][i])))
  }

  predicate PointsTo(g: Memory, p: Ptr, cls: Class) {
    p in g && g[p].cls == cls
  }

  predicate FieldTyped(g: Memory, f: Field, ft: FieldType) {
    match f
    case Scalar(_) => ft.ScalarType?
    case Values(_) => ft.ValuesType?
    case Pointer(p) => ft.LinkType? && (p.Some? ==> PointsTo(g, p.value, ft.target))
    case Pointers(ps) => ft.LinksType? && forall i :: 0 <= i < |ps| && ps[i].Some? ==> PointsTo(g, ps[i].value, ft.target)
  }

  /** A stored cell of the right type, whose keys name existing rows of the right class. */
  predicate CellTyped(rows: Rows, c: Cell, ft: FieldType) {
    match c
    case ScalarCell(_) => ft.ScalarType?
    case ValuesCell(_) => ft.ValuesType?
    case LinkCell(k) => ft.LinkType? && (k.Some? ==> k.value in rows && rows[k.value].cls == ft.target)
    case LinksCell(ks) => ft.LinksType? && forall i :: 0 <= i < |ks| ==> ks[i] in rows && rows[ks[i]].cls == ft.target
  }

  predicate RowTyped(schema: Schema, rows: Rows, row: Row) {
    && row.cls in schema && |row.cells| == |schema[row.cls]|
    && forall i :: 0 <= i < |row.cells| ==> CellTyped(rows, row.cells[i], schema[row.cls][i])
  }

  predicate StructTyped(schema: Schema, g: Memory, s: Struct) {
    && s.cls in schema && |s.fields| == |schema[s.cls]|
    && forall i :: 0 <= i < |s.fields| ==> FieldTyped(g, s.fields[i], schema[s.cls][i])
  }

  /** Every pointer of a field leads to a struct of smaller rank. */
  predicate FieldBelow(g: Memory, rank: map<Ptr, nat>, f: Field, bound: nat) {
    match f
    case Scalar(_) => true
    case Values(_) => true
    case Pointer(p) => p.Some? ==> Below(g, rank, p.value, bound)
    case Pointers(ps) => forall i :: 0 <= i < |ps| && ps[i].Some? ==> Below(g, rank, ps[i].value, bound)
  }

  predicate Below(g: Memory, rank: map<Ptr, nat>, p: Ptr, bound: nat) {
    p in g && p in rank && rank[p] < bound
  }

  /** `rank` shows that no pointer path of the memory closes a cycle. */
  ghost predicate Acyclic(g: Memory, rank: map<Ptr, nat>) {
    && (forall p :: p in g ==> p in rank)
    && (forall p, i :: p in g && 0 <= i < |g[p].fields| ==> FieldBelow(g, rank, g[p].fields[i], rank[p]))
  }

  /** A row with one cell replaced. */
  function WithCell(row: Row, i: nat, c: Cell): Row
    requires i < |row.cells|
  {
    row.(cells := row.cells[i := c])
  }

  /** The index leads every key to the row that has it. */
  predicate IndexMatches(rows: Rows, index: map<(Class, int), Key>) {
    forall e :: e in index ==> index[e] in rows && rows[index[e]].cls == e.0 && rows[index[e]].pk == Some(e.1)
  }

  class Store {
    const schema: Schema
    var rows: Rows
    var next: Key
    /** Primary-key lookup. */
    var index: map<(Class, int), Key>

    /** Every row is well typed; in particular every stored link or list entry names
        an existing row of the declared class. */
    ghost predicate Valid()
      reads this
    {
      && (forall k :: k in rows ==> k < next && RowTyped(schema, rows, rows[k]))
      && IndexMatches(rows, index)
    }

    /** `table::create_object`. */
    method CreateObject(cls: Class) returns (k: Key)
      requires Valid() && cls in schema
      modifies this`rows, this`next
      ensures Valid() && k == old(next) && next == k + 1
      ensures k !in old(rows) && rows == old(rows)[k := BlankRow(schema, cls, None)]
    {
      k := next;
      rows := rows[k := BlankRow(schema, cls, None)];
      next := next + 1;
    }

    /** `table::create_object_with_primary_key`: the row that has the key, or a new one. */
    method CreateObjectWithPrimaryKey(cls: Class, pk: int) returns (k: Key)
      requires Valid() && cls in schema
      modifies this
      ensures Valid() && (cls, pk) in index && k == index[(cls, pk)]
      ensures (cls, pk) in old(index) ==> rows == old(rows) && index == old(index) && next == old(next)
      ensures (cls, pk) !in old(index) ==>
        k == old(next) && next == k + 1 && k !in old(rows)
        && rows == old(rows)[k := BlankRow(schema, cls, Some(pk))] && index == old(index)[(cls, pk) := k]
    {
      if (cls, pk) in index {
        k := index[(cls, pk)];
      } else {
        k := next;
        rows := rows[k := BlankRow(schema, cls, Some(pk))];
        next := next + 1;
        index := index[(cls, pk) := k];
      }
    }

    /** `obj::set` and its siblings: one write to one cell. A link can only be set to
        an existing row, so the store is valid after every single write. */
    method Write(k: Key, i: nat, c: Cell)
      requires Valid() && k in rows && i < |rows[k].cells|
      requires CellTyped(rows, c, schema[rows[k].cls][i])
      modifies this`rows
      ensures Valid() && rows == old(rows)[k := WithCell(old(rows)[k], i, c)]
    {
      rows := rows[k := WithCell(rows[k], i, c)];
    }

    /** `obj::set_list_values` for lists written by `insert`: the new values end up in
        front of what the list held. */
    method InsertValues(k: Key, i: nat, vs: seq<int>)
      requires Valid() && k in rows && i < |rows[k].cells| && rows[k].cells[i].ValuesCell?
      modifies this`rows
      ensures Valid()
      ensures rows == old(rows)[k := WithCell(old(rows)[k], i, ValuesCell(vs + old(rows)[k].cells[i].vs))]
    {
      ghost var row := rows[k];
      assert [] + row.cells[i].vs == row.cells[i].vs;
      assert WithCell(row, i, ValuesCell([] + row.cells[i].vs)) == row;
      for j := 0 to |vs|
        invariant Valid() && k in rows
        invariant rows == old(rows)[k := WithCell(row, i, ValuesCell(vs[..j] + row.cells[i].vs))]
      {
        var list := rows[k].cells[i].vs;
        assert forall c :: WithCell(rows[k], i, c) == WithCell(row, i, c);
        assert list[..j] + [vs[j]] + list[j..] == vs[..j + 1] + row.cells[i].vs;
        Write(k, i, ValuesCell(list[..j] + [vs[j]] + list[j..]));
      }
      assert vs[..|vs|] == vs;
    }
  }
}
