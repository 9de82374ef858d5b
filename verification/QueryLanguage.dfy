/** The vocabulary shared by the query modules: the comparisons a `where` lambda
    can make, the conditions they are supposed to stand for, the conditions the
    builder really emits, and core's query trees.

    `Sat` and `Truth` are given the set of conditions that hold. Which sets are those of
    a row of a database is said in `Databases`; a statement about all sets covers them all. */
module QueryLanguage {
  import opened Bridge

  /** The last three are operands only and never stored: one of a 64-bit unsigned type; a
      `long double`, with the nearest `double`; and an integer alternative of a variant
      other than `int64_t`, that is an enumeration or an `int`. */
  datatype Value =
    | Null
    | Bool(b: bool)
    | Int(i: int)
    | Real(r: real)
    | Text(s: string)
    | Object(key: nat)
    | Unsigned(u: nat)
    | LongReal(exact: real, nearest: real)
    | Narrow(n: int)

  datatype Op = Equal | NotEqual | Greater | Less | GreaterEqual | LessEqual | Contains(caseSensitive: bool)

  /** The kinds of property whose comparison operators take different routes. `Plain`
      covers numbers, booleans, strings, dates, binaries and ids; `OrderedOptional` the
      optional properties with an order, integer primary keys and unscoped enumerations. */
  datatype Kind = Plain | OrderedOptional | Enumeration | AnyValue | Link | DictionaryEntry(key: string)

  datatype Test = Test(kind: Kind, col: ColKey, op: Op, rhs: Value)

  /** The column type a comparison is evaluated on. */
  datatype Column = PlainColumn | TextColumn | AnyColumn | LinkColumn | EntryColumn(key: string)

  datatype Cond = Cond(path: seq<ColKey>, column: Column, col: ColKey, op: Op, rhs: Value)

  function ColumnOf(kind: Kind): Column {
    match kind
    case Plain => PlainColumn
    case OrderedOptional => PlainColumn
    case Enumeration => PlainColumn
    case AnyValue => AnyColumn
    case Link => LinkColumn
    case DictionaryEntry(key) => EntryColumn(key)
  }

  const TWO_TO_THE_63 := 0x8000_0000_0000_0000
  const TWO_TO_THE_64 := 0x1_0000_0000_0000_0000

  /** The number an operand denotes. */
  function Denoted(v: Value): Value {
    match v
    case Unsigned(u) => Int(u)
    case LongReal(exact, _) => Real(exact)
    case Narrow(n) => Int(n)
    case _ => v
  }

  /** The operand handed to core, cast to `int64_t` or `double`. */
  function Cast(v: Value): Value {
    match v
    case Unsigned(u) => Int(if u < TWO_TO_THE_63 then u else u - TWO_TO_THE_64)
    case LongReal(_, nearest) => Real(nearest)
    case Narrow(n) => Int(n)
    case _ => v
  }

  /** The cast keeps the number. */
  predicate Representable(v: Value) {
    match v
    case Unsigned(u) => u < TWO_TO_THE_63
    case LongReal(exact, nearest) => exact == nearest
    case _ => true
  }

  /** What the expression says: the comparison, at the end of the navigated links. */
  function Meaning(path: seq<ColKey>, t: Test): Cond {
    Cond(path, ColumnOf(t.kind), t.col, t.op, Denoted(t.rhs))
  }

  /** What the builder emits, given its pending link chain (empty when there is none). */
  function Emitted(chain: seq<ColKey>, t: Test): Cond {
    var rhs := Cast(t.rhs);
    match t.kind
    case Plain => Cond(chain, PlainColumn, t.col, t.op, rhs)
    case OrderedOptional => Cond(chain, PlainColumn, t.col, t.op, rhs)
    case Enumeration => Cond(chain, PlainColumn, t.col, if t.op == Less then Greater else t.op, rhs)
    case Link =>
      Cond(chain, LinkColumn, t.col, if chain != [] && t.op == Equal && rhs == Null then NotEqual else t.op, rhs)
    case AnyValue =>
      Cond(chain, if chain != [] && t.op == Equal then TextColumn else AnyColumn, t.col, t.op,
        if chain != [] && t.op == NotEqual && rhs == Bool(false) then Null else rhs)
    case DictionaryEntry(key) => Cond([], EntryColumn(key), t.col, t.op, rhs)
  }

  /** The builder's pending chain after a comparison: a dictionary-key comparison
      neither reads nor clears it. */
  function ChainAfter(chain: seq<ColKey>, t: Test): seq<ColKey> {
    if t.kind.DictionaryEntry? then chain else []
  }

  /** Direct any-value and direct link comparisons add their condition to the
      builder's current query; every other comparison starts from an empty one. */
  predicate Accumulates(chain: seq<ColKey>, t: Test) {
    chain == [] && (t.kind.AnyValue? || t.kind.Link?)
  }

  /** The guards of the branches that emit something else than was written. */
  predicate Misbuilt(path: seq<ColKey>, t: Test) {
    || (t.kind.Enumeration? && t.op == Less)
    || (t.kind.Link? && path != [] && t.op == Equal && t.rhs == Null)
    || (t.kind.AnyValue? && path != [] && (t.op == Equal || (t.op == NotEqual && t.rhs == Bool(false))))
    || (t.kind.DictionaryEntry? && path != [])
    || !Representable(t.rhs)
  }

  /** Core's query tree. `All` is the empty query, which selects every row. */
  datatype Query = All | Leaf(cond: Cond) | And(left: Query, right: Query) | Or(left: Query, right: Query) | Not(arg: Query)

  type Row = iset<Cond>

  ghost predicate Sat(row: Row, q: Query) {
    match q
    case All => true
    case Leaf(c) => c in row
    case And(a, b) => Sat(row, a) && Sat(row, b)
    case Or(a, b) => Sat(row, a) || Sat(row, b)
    case Not(a) => !Sat(row, a)
  }

  /** The boolean expression a lambda returns. `Compare(path, test)` navigates
      `path` with `->` and then compares a property of the object reached. */
  datatype Body =
    | Compare(path: seq<ColKey>, test: Test)
    | Conj(left: Body, right: Body)
    | Disj(left: Body, right: Body)
    | Neg(arg: Body)

  /** The truth value the expression has for a row. */
  ghost predicate Truth(row: Row, b: Body) {
    match b
    case Compare(path, t) => Meaning(path, t) in row
    case Conj(x, y) => Truth(row, x) && Truth(row, y)
    case Disj(x, y) => Truth(row, x) || Truth(row, y)
    case Neg(x) => !Truth(row, x)
  }

  /** No comparison of the body takes one of the misbuilding branches. */
  predicate WellBuilt(b: Body) {
    match b
    case Compare(path, t) => !Misbuilt(path, t)
    case Conj(x, y) => WellBuilt(x) && WellBuilt(y)
    case Disj(x, y) => WellBuilt(x) && WellBuilt(y)
    case Neg(x) => WellBuilt(x)
  }

  /** The number of nodes of a body. */
  function Size(b: Body): (n: nat)
    ensures n > 0
  {
    match b
    case Compare(_, _) => 1
    case Conj(x, y) => 1 + Size(x) + Size(y)
    case Disj(x, y) => 1 + Size(x) + Size(y)
    case Neg(x) => 1 + Size(x)
  }

  /** Every condition the body is about. */
  function Conds(b: Body): set<Cond> {
    match b
    case Compare(path, t) => {Meaning(path, t)}
    case Conj(x, y) => Conds(x) + Conds(y)
    case Disj(x, y) => Conds(x) + Conds(y)
    case Neg(x) => Conds(x)
  }

  /** No condition occurs twice, so a row can make each one true or false freely. */
  predicate Distinct(b: Body) {
    match b
    case Compare(_, _) => true
    case Conj(x, y) => Distinct(x) && Distinct(y) && Conds(x) !! Conds(y)
    case Disj(x, y) => Distinct(x) && Distinct(y) && Conds(x) !! Conds(y)
    case Neg(x) => Distinct(x)
  }

  /** A comparison is emitted as written exactly when it avoids those branches. */
  lemma EmittedAsWritten(path: seq<ColKey>, t: Test)
    ensures Emitted(path, t) == Meaning(path, t) <==> !Misbuilt(path, t)
  {
  }
}
