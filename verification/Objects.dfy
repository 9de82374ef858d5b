/** What a stored property can hold, and when a comparison of it is true. An `Object` here
    is what a body sees of a row: the values at the locations it compares. */
module Objects {
  import opened Bridge
  import opened QueryLanguage

  /** A property of the object, or of an object it links to. */
  datatype Location = Location(path: seq<ColKey>, column: Column, col: ColKey)

  type Object = map<Location, Value>

  function LocationOf(c: Cond): Location {
    Location(c.path, c.column, c.col)
  }

  // ----- core's conditions -----

  predicate CompareInts(op: Op, a: int, b: int) {
    match op
    case Equal => a == b
    case NotEqual => a != b
    case Greater => a > b
    case Less => a < b
    case GreaterEqual => a >= b
    case LessEqual => a <= b
    case Contains(_) => false
  }

  predicate CompareReals(op: Op, a: real, b: real) {
    match op
    case Equal => a == b
    case NotEqual => a != b
    case Greater => a > b
    case Less => a < b
    case GreaterEqual => a >= b
    case LessEqual => a <= b
    case Contains(_) => false
  }

  predicate OccursAt(s: string, part: string, i: nat) {
    i + |part| <= |s| && s[i..i + |part|] == part
  }

  predicate Occurs(s: string, part: string) {
    exists i :: 0 <= i <= |s| && OccursAt(s, part, i)
  }

  function FoldChar(c: char): char {
    if 'A' <= c <= 'Z' then c - 'A' + 'a' else c
  }

  /** Case folding, of the ASCII letters. */
  function Fold(s: string): string {
    seq(|s|, i requires 0 <= i < |s| => FoldChar(s[i]))
  }

  predicate CompareTexts(op: Op, a: string, b: string) {
    match op
    case Equal => a == b
    case NotEqual => a != b
    case Contains(true) => Occurs(a, b)
    case Contains(false) => Occurs(Fold(a), Fold(b))
    case _ => false
  }

  /** Whether a condition holds of a stored value. Null is equal to null only and is not
      ordered; values of different types are unequal. */
  predicate Holds(op: Op, stored: Value, rhs: Value) {
    match (stored, rhs)
    case (Int(a), Int(b)) => CompareInts(op, a, b)
    case (Real(a), Real(b)) => CompareReals(op, a, b)
    case (Text(a), Text(b)) => CompareTexts(op, a, b)
    case _ => if op == Equal then stored == rhs else op == NotEqual && stored != rhs
  }

  // ----- what the operators mean -----

  /** The one order behind the four order operators. */
  predicate Exceeds(v: Value, w: Value) {
    (v.Int? && w.Int? && v.i > w.i) || (v.Real? && w.Real? && v.r > w.r)
  }

  predicate Ordered(v: Value, w: Value) {
    (v.Int? && w.Int?) || (v.Real? && w.Real?)
  }

  /** The same letter, in either case, or the same character. */
  predicate SameLetter(c: char, d: char) {
    c == d || ('a' <= c <= 'z' && c as int - 32 == d as int) || ('A' <= c <= 'Z' && c as int + 32 == d as int)
  }

  predicate SameLetters(s: string, t: string) {
    |s| == |t| && forall i :: 0 <= i < |s| ==> SameLetter(s[i], t[i])
  }

  ghost predicate HasPart(s: string, part: string) {
    exists before, after :: s == before + part + after
  }

  ghost predicate HasPartInAnyCase(s: string, part: string) {
    exists before, same, after :: s == before + same + after && SameLetters(same, part)
  }

  /** What an operator says of a stored value. */
  ghost predicate Related(op: Op, stored: Value, rhs: Value) {
    match op
    case Equal => stored == rhs
    case NotEqual => stored != rhs
    case Greater => Exceeds(stored, rhs)
    case Less => Exceeds(rhs, stored)
    case GreaterEqual => Ordered(stored, rhs) && !Exceeds(rhs, stored)
    case LessEqual => Ordered(stored, rhs) && !Exceeds(stored, rhs)
    case Contains(true) => stored.Text? && rhs.Text? && HasPart(stored.s, rhs.s)
    case Contains(false) => stored.Text? && rhs.Text? && HasPartInAnyCase(stored.s, rhs.s)
  }

  lemma OccursAsPart(s: string, part: string)
    ensures Occurs(s, part) <==> HasPart(s, part)
  {
    if Occurs(s, part) {
      var i :| 0 <= i <= |s| && OccursAt(s, part, i);
      assert s == s[..i] + part + s[i + |part|..];
    }
    if HasPart(s, part) {
      var before, after :| s == before + part + after;
      assert OccursAt(s, part, |before|);
    }
  }

  lemma FoldedSame(s: string, t: string)
    ensures Fold(s) == Fold(t) <==> SameLetters(s, t)
  {
    assert |Fold(s)| == |s| && |Fold(t)| == |t|;
    if Fold(s) == Fold(t) {
      forall i | 0 <= i < |s| ensures SameLetter(s[i], t[i]) {
        assert Fold(s)[i] == Fold(t)[i];
      }
    }
  }

  lemma FoldedSlice(s: string, i: nat, n: nat)
    requires i + n <= |s|
    ensures |Fold(s)| == |s| && Fold(s)[i..i + n] == Fold(s[i..i + n])
  {
  }

  lemma PartOfFolded(s: string, part: string, i: nat)
    requires i <= |s| && OccursAt(Fold(s), Fold(part), i)
    ensures HasPartInAnyCase(s, part)
  {
    assert |Fold(part)| == |part| && |Fold(s)| == |s|;
    var same := s[i..i + |part|];
    FoldedSlice(s, i, |part|);
    FoldedSame(same, part);
    assert s == s[..i] + same + s[i + |part|..];
  }

  lemma FoldedPart(before: string, same: string, after: string, part: string)
    requires SameLetters(same, part)
    ensures Occurs(Fold(before + same + after), Fold(part))
  {
    var s := before + same + after;
    FoldedSame(same, part);
    FoldedSlice(s, |before|, |same|);
    assert s[|before|..|before| + |same|] == same && |Fold(part)| == |part|;
    assert OccursAt(Fold(s), Fold(part), |before|);
  }

  lemma OccursInAnyCase(s: string, part: string)
    ensures Occurs(Fold(s), Fold(part)) <==> HasPartInAnyCase(s, part)
  {
    if Occurs(Fold(s), Fold(part)) {
      var i :| 0 <= i <= |Fold(s)| && OccursAt(Fold(s), Fold(part), i);
      PartOfFolded(s, part, i);
    }
    if HasPartInAnyCase(s, part) {
      var before, same, after :| s == before + same + after && SameLetters(same, part);
      FoldedPart(before, same, after, part);
    }
  }

  /** A condition holds of a value exactly when the operator says so. */
  lemma HoldsAsRelated(op: Op, stored: Value, rhs: Value)
    ensures Holds(op, stored, rhs) <==> Related(op, stored, rhs)
  {
    if stored.Text? && rhs.Text? {
      OccursAsPart(stored.s, rhs.s);
      OccursInAnyCase(stored.s, rhs.s);
    }
  }

  /** The conditions that hold of an object. */
  ghost function RowOf(o: Object): Row {
    iset c: Cond | LocationOf(c) in o && Holds(c.op, o[LocationOf(c)], c.rhs)
  }

  // ----- typing -----

  predicate IsEquality(op: Op) {
    op == Equal || op == NotEqual
  }

  predicate IsOrdering(op: Op) {
    op == Greater || op == Less || op == GreaterEqual || op == LessEqual
  }

  predicate IsInt64(i: int) {
    -TWO_TO_THE_63 <= i < TWO_TO_THE_63
  }

  /** The comparisons the managed types have operators for. */
  predicate Offered(t: Test) {
    && (t.rhs.Unsigned? ==> t.kind.Plain? && t.rhs.u < TWO_TO_THE_64)
    && (t.rhs.LongReal? ==> t.kind.Plain?)
    && (t.rhs.Narrow? ==> t.kind.AnyValue? && IsInt64(t.rhs.n))
    && (t.rhs.Int? ==> IsInt64(t.rhs.i))
    && match t.kind
       case Plain =>
         (IsEquality(t.op) && !t.rhs.Object?) || (IsOrdering(t.op) && IsNumber(t.rhs))
         || (t.op.Contains? && t.rhs.Text?)
       case OrderedOptional => (IsEquality(t.op) && (t.rhs.Int? || t.rhs.Null?)) || (IsOrdering(t.op) && t.rhs.Int?)
       case Enumeration => (IsEquality(t.op) && (t.rhs.Int? || t.rhs.Null?)) || (IsOrdering(t.op) && t.rhs.Int?)
       case AnyValue => IsEquality(t.op) && !t.rhs.Object?
       case Link => IsEquality(t.op) && (t.rhs.Null? || t.rhs.Object?)
       case DictionaryEntry(_) =>
         (IsEquality(t.op) && !t.rhs.Object?) || (IsOrdering(t.op) && (t.rhs.Int? || t.rhs.Real?))
         || (t.op == Contains(true) && t.rhs.Text?)
  }

  predicate IsNumber(v: Value) {
    v.Int? || v.Unsigned? || v.Real? || v.LongReal?
  }

  /** A value that can be stored. */
  predicate Storable(v: Value) {
    !v.Unsigned? && !v.LongReal? && !v.Narrow? && (v.Int? ==> IsInt64(v.i))
  }

  /** A stored `double` is neither an unrepresentable number nor nearer to it than its
      nearest one. */
  predicate IsDoubleFor(r: real, w: Value)
    requires w.LongReal?
  {
    w.exact != w.nearest ==> r != w.exact && !(w.exact < r < w.nearest) && !(w.nearest < r < w.exact)
  }

  predicate SameType(v: Value, w: Value) {
    match w
    case Null => !v.Object?
    case Bool(_) => v.Bool?
    case Int(_) => v.Int?
    case Unsigned(_) => v.Int?
    case Narrow(_) => v.Int?
    case Real(_) => v.Real?
    case LongReal(_, _) => v.Real? && IsDoubleFor(v.r, w)
    case Text(_) => v.Text?
    case Object(_) => v.Object?
  }

  /** The values that a property compared in this way can hold. Properties compared for
      equality may be optional; the optional ones with an order are `OrderedOptional`. */
  predicate Admits(t: Test, v: Value) {
    && Offered(t) && Storable(v)
    && match t.kind
       case Plain => SameType(v, t.rhs) || (IsEquality(t.op) && !t.rhs.Unsigned? && !t.rhs.LongReal? && v.Null?)
       case OrderedOptional => v.Int? || v.Null?
       case Enumeration => v.Int? || (IsEquality(t.op) && v.Null?)
       case AnyValue => !v.Object?
       case Link => v.Null? || v.Object?
       case DictionaryEntry(_) => SameType(v, t.rhs) || IsEquality(t.op)
  }

  /** The truth of a comparison for a stored value. */
  predicate Says(t: Test, v: Value) {
    Holds(t.op, v, Denoted(t.rhs))
  }

  /** Some stored value satisfies the comparison and some other does not. */
  ghost predicate Contingent(t: Test) {
    (exists v :: Admits(t, v) && Says(t, v)) && (exists v :: Admits(t, v) && !Says(t, v))
  }

  /** A number beyond the nearest `double` of a number. */
  function FurtherOff(r: real, nearest: real): real {
    if r <= nearest then nearest + 1.0 else nearest - 1.0
  }

  /** Equality comparisons, for one, are all contingent, except with an operand that no
      stored number can equal. */
  lemma EqualitiesAreContingent(t: Test)
    requires Offered(t) && IsEquality(t.op)
    ensures Contingent(t) <==> Representable(t.rhs)
  {
    var same := Denoted(t.rhs);
    var other := match same
      case Null => if t.kind.Link? then Object(0) else Int(0)
      case Bool(b) => Bool(!b)
      case Int(i) => Int(if i == 0 then 1 else 0)
      case Real(r) => Real(if t.rhs.LongReal? then FurtherOff(r, t.rhs.nearest) else r + 1.0)
      case Text(s) => assert |s + "x"| > |s|; Text(s + "x")
      case Object(k) => Object(k + 1)
      case _ => Null;
    assert Admits(t, other) && Says(t, other) == (t.op == NotEqual);
    if !Representable(t.rhs) {
      assert forall v :: Admits(t, v) ==> Says(t, v) == (t.op == NotEqual);
    } else {
      assert Admits(t, same) && Says(t, same) == (t.op == Equal);
    }
  }

  // ----- objects a body can be evaluated on -----

  function LocationAt(path: seq<ColKey>, t: Test): Location {
    Location(path, ColumnOf(t.kind), t.col)
  }

  function Locations(b: Body): set<Location> {
    match b
    case Compare(path, t) => {LocationAt(path, t)}
    case Conj(x, y) => Locations(x) + Locations(y)
    case Disj(x, y) => Locations(x) + Locations(y)
    case Neg(x) => Locations(x)
  }

  /** The object has every property the body compares, holding a value of its type. */
  predicate Conforms(o: Object, b: Body) {
    match b
    case Compare(path, t) => LocationAt(path, t) in o && Admits(t, o[LocationAt(path, t)])
    case Conj(x, y) => Conforms(o, x) && Conforms(o, y)
    case Disj(x, y) => Conforms(o, x) && Conforms(o, y)
    case Neg(x) => Conforms(o, x)
  }

  /** The same property of the same object. Entries of a dictionary with different keys
      are different ones. */
  predicate Same(l: Location, m: Location) {
    && l.path == m.path && l.col == m.col
    && (l.column.EntryColumn? && m.column.EntryColumn? ==> l.column == m.column)
  }

  /** The way to `m` leads through the property `l`. */
  predicate LeadsThrough(m: Location, l: Location) {
    l.path + [l.col] <= m.path
  }

  /** No property occurs on both sides, and none compared on one side is a link that is
      navigated on the other. */
  predicate Apart(ls: set<Location>, ms: set<Location>) {
    && ls !! ms
    && forall l, m :: l in ls && m in ms ==> !Same(l, m) && !LeadsThrough(m, l) && !LeadsThrough(l, m)
  }

  /** The comparisons of the body are contingent, about different properties, and none is
      of a link that another one navigates. */
  ghost predicate Independent(b: Body) {
    match b
    case Compare(_, t) => Contingent(t)
    case Conj(x, y) => Independent(x) && Independent(y) && Apart(Locations(x), Locations(y))
    case Disj(x, y) => Independent(x) && Independent(y) && Apart(Locations(x), Locations(y))
    case Neg(x) => Independent(x)
  }

  lemma {:induction false} CondsAreLocated(b: Body)
    ensures forall c :: c in Conds(b) ==> LocationOf(c) in Locations(b)
  {
    match b
    case Compare(_, _) =>
    case Neg(x) => CondsAreLocated(x);
    case Conj(x, y) => CondsAreLocated(x); CondsAreLocated(y);
    case Disj(x, y) => CondsAreLocated(x); CondsAreLocated(y);
  }

  lemma {:induction false} IndependentIsDistinct(b: Body)
    requires Independent(b)
    ensures Distinct(b)
    decreases Size(b)
  {
    match b
    case Compare(_, _) =>
    case Neg(x) => IndependentIsDistinct(x);
    case Conj(x, y) => DistinctOperands(x, y);
    case Disj(x, y) => DistinctOperands(x, y);
  }

  lemma {:induction false} DistinctOperands(x: Body, y: Body)
    requires Independent(x) && Independent(y) && Locations(x) !! Locations(y)
    ensures Distinct(x) && Distinct(y) && Conds(x) !! Conds(y)
    decreases Size(x) + Size(y)
  {
    IndependentIsDistinct(x);
    IndependentIsDistinct(y);
    CondsAreLocated(x);
    CondsAreLocated(y);
  }

  predicate AgreeAt(ls: set<Location>, o: Object, o': Object) {
    forall l :: l in ls ==> l in o && l in o' && o[l] == o'[l]
  }

  lemma {:induction false} ConformsIsLocal(b: Body, o: Object, o': Object)
    requires Conforms(o, b) && AgreeAt(Locations(b), o, o')
    ensures Conforms(o', b)
  {
    match b
    case Compare(path, t) => assert LocationAt(path, t) in Locations(b);
    case Neg(x) => ConformsIsLocal(x, o, o');
    case Conj(x, y) => ConformsIsLocal(x, o, o'); ConformsIsLocal(y, o, o');
    case Disj(x, y) => ConformsIsLocal(x, o, o'); ConformsIsLocal(y, o, o');
  }

  /** Objects for operands about different properties can be put together. */
  lemma Joined(x: Body, y: Body, o: Object, p: Object)
    requires Locations(x) !! Locations(y) && o.Keys == Locations(x) && p.Keys == Locations(y)
    requires Conforms(o, x) && Conforms(p, y)
    ensures AgreeAt(Locations(x), o, o + p) && AgreeAt(Locations(y), p, o + p)
    ensures Conforms(o + p, x) && Conforms(o + p, y) && (o + p).Keys == Locations(x) + Locations(y)
  {
    ConformsIsLocal(x, o, o + p);
    ConformsIsLocal(y, p, o + p);
  }

  ghost predicate AgreeOn(cs: set<Cond>, r: Row, s: Row) {
    forall c :: c in cs ==> (c in r <==> c in s)
  }

  lemma RowIsLocal(b: Body, o: Object, o': Object)
    requires AgreeAt(Locations(b), o, o')
    ensures AgreeOn(Conds(b), RowOf(o), RowOf(o'))
  {
    CondsAreLocated(b);
  }

  /** Values of which exactly those conditions of the body hold that are in the row. */
  ghost function Realised(b: Body, r: Row): (o: Object)
    requires Independent(b)
    ensures o.Keys == Locations(b) && Conforms(o, b) && AgreeOn(Conds(b), RowOf(o), r)
    decreases Size(b)
  {
    match b
    case Compare(path, t) =>
      var v :| Admits(t, v) && Says(t, v) == (Meaning(path, t) in r);
      map[LocationAt(path, t) := v]
    case Neg(x) => Realised(x, r)
    case Conj(x, y) =>
      RealisedOperands(x, y, r);
      Realised(x, r) + Realised(y, r)
    case Disj(x, y) =>
      RealisedOperands(x, y, r);
      Realised(x, r) + Realised(y, r)
  }

  lemma RealisedOperands(x: Body, y: Body, r: Row)
    requires Independent(x) && Independent(y) && Locations(x) !! Locations(y)
    ensures var o := Realised(x, r) + Realised(y, r);
      && o.Keys == Locations(x) + Locations(y) && Conforms(o, x) && Conforms(o, y)
      && AgreeOn(Conds(x) + Conds(y), RowOf(o), r)
    decreases Size(x) + Size(y)
  {
    var o, p := Realised(x, r), Realised(y, r);
    Joined(x, y, o, p);
    RowIsLocal(x, o, o + p);
    RowIsLocal(y, p, o + p);
  }
}
