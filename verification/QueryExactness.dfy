/** The converse of `WhereIsFaithful`: an inadmissible body whose comparisons can be true
    and false independently compiles to a query that some stored object exposes. The
    argument is one of sensitivity: we build a row and a condition such that switching
    the condition switches the body's truth value while the compiled query does not
    notice, and then an object with that row. */
module QueryExactness {
  import opened Bridge
  import opened Databases
  import opened QueryLanguage
  import opened QueryCompiler
  import opened Objects

  lemma {:induction false} TruthIsLocal(b: Body, r: Row, s: Row)
    requires forall c :: c in Conds(b) ==> (c in r <==> c in s)
    ensures Truth(r, b) == Truth(s, b)
  {
    match b
    case Compare(_, _) =>
    case Neg(x) => TruthIsLocal(x, r, s);
    case Conj(x, y) => TruthIsLocal(x, r, s); TruthIsLocal(y, r, s);
    case Disj(x, y) => TruthIsLocal(x, r, s); TruthIsLocal(y, r, s);
  }

  lemma {:induction false} EndsAreConds(b: Body)
    ensures First(b) in Conds(b) && Last(b) in Conds(b)
  {
    match b
    case Compare(_, _) =>
    case Neg(x) => EndsAreConds(x);
    case Conj(x, y) => EndsAreConds(x); EndsAreConds(y);
    case Disj(x, y) => EndsAreConds(x); EndsAreConds(y);
  }

  ghost predicate Within(r: Row, b: Body) {
    forall c :: c in r ==> c in Conds(b)
  }

  /** Rows chosen independently for the two operands can be joined. */
  lemma JoinedRow(x: Body, y: Body, r: Row, s: Row)
    requires Conds(x) !! Conds(y) && Within(r, x) && Within(s, y)
    ensures Truth(r + s, x) == Truth(r, x) && Truth(r + s, y) == Truth(s, y)
  {
    TruthIsLocal(x, r + s, r);
    TruthIsLocal(y, r + s, s);
  }

  /** A row giving the body the wanted value. */
  ghost function Choose(b: Body, want: bool): (r: Row)
    requires Distinct(b)
    ensures Within(r, b) && Truth(r, b) == want
  {
    match b
    case Compare(path, t) => if want then iset{Meaning(path, t)} else iset{}
    case Neg(x) => Choose(x, !want)
    case Conj(x, y) =>
      JoinedRow(x, y, Choose(x, want), Choose(y, want));
      Choose(x, want) + Choose(y, want)
    case Disj(x, y) =>
      JoinedRow(x, y, Choose(x, want), Choose(y, want));
      Choose(x, want) + Choose(y, want)
  }

  /** A row giving the body the wanted value although its last comparison is false. */
  ghost function ChooseLastFalse(b: Body, want: bool): (r: Row)
    requires Distinct(b) && LastForces(b) != Always(!want)
    ensures Within(r, b) && Truth(r, b) == want && Last(b) !in r
  {
    match b
    case Compare(_, _) => iset{}
    case Neg(x) => ChooseLastFalse(x, !want)
    case Conj(x, y) =>
      EndsAreConds(y);
      var s := if want then ChooseLastFalse(y, true) else iset{};
      JoinedRow(x, y, Choose(x, want), s);
      Choose(x, want) + s
    case Disj(x, y) =>
      EndsAreConds(y);
      var s := if want then iset{} else ChooseLastFalse(y, false);
      JoinedRow(x, y, Choose(x, want), s);
      Choose(x, want) + s
  }

  /** The same for its first comparison. */
  ghost function ChooseFirstFalse(b: Body, want: bool): (r: Row)
    requires Distinct(b) && FirstForces(b) != Always(!want)
    ensures Within(r, b) && Truth(r, b) == want && First(b) !in r
  {
    match b
    case Compare(_, _) => iset{}
    case Neg(x) => ChooseFirstFalse(x, !want)
    case Conj(x, y) =>
      EndsAreConds(x);
      var s := if want then ChooseFirstFalse(x, true) else iset{};
      JoinedRow(x, y, s, Choose(y, want));
      s + Choose(y, want)
    case Disj(x, y) =>
      EndsAreConds(x);
      var s := if want then iset{} else ChooseFirstFalse(x, false);
      JoinedRow(x, y, s, Choose(y, want));
      s + Choose(y, want)
  }

  /** A row, with a given condition switched on or off. */
  ghost function Switched(r: Row, c: Cond, on: bool): Row {
    if on then r + iset{c} else r - iset{c}
  }

  /** A condition whose switching changes the body's value on a row. */
  ghost predicate Pivot(b: Body, r: Row, c: Cond) {
    c in Conds(b) && Truth(Switched(r, c, true), b) != Truth(Switched(r, c, false), b)
  }

  /** A pivot of the left operand stays one when the right operand is neutral, and the other way round. */
  lemma PivotOfOperand(x: Body, y: Body, r: Row, s: Row, c: Cond, neutral: bool)
    requires Conds(x) !! Conds(y) && Within(r, x) && Within(s, y)
    requires Pivot(x, r, c) && Truth(s, y) == neutral
    ensures neutral ==> Pivot(Conj(x, y), r + s, c) && Pivot(Conj(y, x), s + r, c)
    ensures !neutral ==> Pivot(Disj(x, y), r + s, c) && Pivot(Disj(y, x), s + r, c)
  {
    forall on: bool
      ensures Truth(Switched(r + s, c, on), x) == Truth(Switched(s + r, c, on), x) == Truth(Switched(r, c, on), x)
      ensures Truth(Switched(r + s, c, on), y) == Truth(Switched(s + r, c, on), y) == neutral
    {
      TruthIsLocal(x, Switched(r + s, c, on), Switched(r, c, on));
      TruthIsLocal(x, Switched(s + r, c, on), Switched(r, c, on));
      TruthIsLocal(y, Switched(r + s, c, on), s);
      TruthIsLocal(y, Switched(s + r, c, on), s);
    }
  }

  /** A row on which the first comparison is a pivot. */
  ghost function PivotFirst(b: Body): (r: Row)
    requires Distinct(b)
    ensures Within(r, b) && Pivot(b, r, First(b))
  {
    EndsAreConds(b);
    match b
    case Compare(_, _) => iset{}
    case Neg(x) => PivotFirst(x)
    case Conj(x, y) =>
      PivotOfOperand(x, y, PivotFirst(x), Choose(y, true), First(x), true);
      PivotFirst(x) + Choose(y, true)
    case Disj(x, y) =>
      PivotOfOperand(x, y, PivotFirst(x), Choose(y, false), First(x), false);
      PivotFirst(x) + Choose(y, false)
  }

  datatype Probe = Probe(row: Row, cond: Cond)

  /** For an inadmissible body, a row and a condition that is a pivot of the body and
      that, as `ProbeIsMissed` shows, the compiled query does not react to:
      an accumulating comparison whose predecessor is false while the operator stays
      open, or the predecessor itself when the accumulating one is false. */
  ghost function ProbeOf(build: Build, b: Body): (p: Probe)
    requires Distinct(b) && !Admissible(build, b)
    ensures Within(p.row, b) && Pivot(b, p.row, p.cond)
    decreases Size(b)
  {
    match b
    case Neg(x) => ProbeOf(build, x)
    case Conj(x, y) => ProbeOfOperands(build, x, y, false)
    case Disj(x, y) => ProbeOfOperands(build, x, y, true)
  }

  ghost function ProbeOfOperands(build: Build, x: Body, y: Body, absorbing: bool): (p: Probe)
    requires Distinct(x) && Distinct(y) && Conds(x) !! Conds(y)
    requires !Admissible(build, x) || !Admissible(build, y) || !Mergeable(build, x, y, absorbing)
    ensures var b := if absorbing then Disj(x, y) else Conj(x, y);
      Within(p.row, b) && Pivot(b, p.row, p.cond)
    decreases Size(x) + Size(y)
  {
    EndsAreConds(x);
    EndsAreConds(y);
    if FirstAccumulates(y) && LastForces(x) != Always(absorbing) then
      var r, s := ChooseLastFalse(x, !absorbing), PivotFirst(y);
      PivotOfOperand(y, x, s, r, First(y), !absorbing);
      Probe(r + s, First(y))
    else if !Mergeable(build, x, y, absorbing) then
      var s := ChooseFirstFalse(y, true);
      PivotOfOperand(x, y, iset{}, s, First(x), true);
      Probe(iset{} + s, First(x))
    else if !Admissible(build, x) then
      var p, s := ProbeOf(build, x), Choose(y, !absorbing);
      PivotOfOperand(x, y, p.row, s, p.cond, !absorbing);
      Probe(p.row + s, p.cond)
    else
      var p, r := ProbeOf(build, y), Choose(x, !absorbing);
      PivotOfOperand(y, x, p.row, r, p.cond, !absorbing);
      Probe(r + p.row, p.cond)
  }

  ghost predicate Same(r: Row, s: Row, q: Query) {
    Sat(r, q) == Sat(s, q)
  }

  /** Two rows that agree on a body's conditions and on the start query cannot be
      told apart by anything the run leaves behind. */
  lemma {:induction false} RunIsLocal(build: Build, b: Body, start: Query, r: Row, s: Row)
    requires WellBuilt(b) && AgreeOn(Conds(b), r, s) && Same(r, s, start)
    ensures var o := Compile(build, b, start); Same(r, s, o.result) && Same(r, s, o.builder) && Same(r, s, o.entry)
  {
    match b
    case Compare(path, t) => EmittedAsWritten(path, t);
    case Neg(x) => RunIsLocal(build, x, start, r, s);
    case Conj(x, y) =>
      RunIsLocal(build, x, start, r, s);
      RunIsLocal(build, y, Compile(build, x, start).builder, r, s);
    case Disj(x, y) =>
      RunIsLocal(build, x, start, r, s);
      RunIsLocal(build, y, Compile(build, x, start).builder, r, s);
  }

  /** The builder is left with a query that includes the last comparison. */
  lemma {:induction false} BuilderNeedsLast(build: Build, b: Body, start: Query, r: Row)
    requires WellBuilt(b) && Last(b) !in r
    ensures !Sat(r, Compile(build, b, start).builder)
  {
    match b
    case Compare(path, t) => EmittedAsWritten(path, t);
    case Neg(x) => BuilderNeedsLast(build, x, start, r);
    case Conj(x, y) => BuilderNeedsLast(build, y, Compile(build, x, start).builder, r);
    case Disj(x, y) => BuilderNeedsLast(build, y, Compile(build, x, start).builder, r);
  }

  /** When the start query and an accumulating first comparison never hold together,
      the run depends on neither. */
  lemma {:induction false} DeadOpening(build: Build, b: Body, start: Query, r: Row, s: Row)
    requires WellBuilt(b) && Distinct(b) && FirstAccumulates(b)
    requires AgreeOn(Conds(b) - {First(b)}, r, s)
    requires !(Sat(r, start) && First(b) in r) && !(Sat(s, start) && First(b) in s)
    ensures var o := Compile(build, b, start);
      && Same(r, s, o.result) && Same(r, s, o.builder)
      && !Sat(r, o.entry) && !Sat(s, o.entry)
      && (b.Compare? ==> !Sat(r, o.result))
  {
    match b
    case Compare(path, t) => EmittedAsWritten(path, t);
    case Neg(x) => DeadOpening(build, x, start, r, s);
    case Conj(x, y) =>
      EndsAreConds(x);
      DeadOpening(build, x, start, r, s);
      RunIsLocal(build, y, Compile(build, x, start).builder, r, s);
    case Disj(x, y) =>
      EndsAreConds(x);
      DeadOpening(build, x, start, r, s);
      RunIsLocal(build, y, Compile(build, x, start).builder, r, s);
  }

  /** `r` looks like the probe's row, with the probe's condition switched on or off. */
  ghost predicate Shows(b: Body, p: Probe, r: Row, on: bool) {
    AgreeOn(Conds(b), r, Switched(p.row, p.cond, on))
  }

  /** What a run must not notice. If the probe is the opening accumulating comparison,
      it does reach the entry cell, and then the result must be settled anyway. */
  ghost predicate Missed(build: Build, b: Body, start: Query, c: Cond, r: Row, s: Row) {
    var o := Compile(build, b, start);
    && Same(r, s, o.result) && Same(r, s, o.builder)
    && (c == First(b) && FirstAccumulates(b) && FirstForces(b).Always? ==> Sat(r, o.result) == FirstForces(b).value)
  }

  lemma {:induction false} ProbeIsMissed(build: Build, b: Body, start: Query, r: Row, s: Row)
    requires WellBuilt(b) && Distinct(b) && !Admissible(build, b)
    requires Shows(b, ProbeOf(build, b), r, true) && Shows(b, ProbeOf(build, b), s, false)
    requires Same(r, s, start)
    ensures Missed(build, b, start, ProbeOf(build, b).cond, r, s)
    decreases Size(b)
  {
    match b
    case Neg(x) => ProbeIsMissed(build, x, start, r, s);
    case Conj(x, y) => ProbeIsMissedByOperands(build, x, y, start, r, s, false);
    case Disj(x, y) => ProbeIsMissedByOperands(build, x, y, start, r, s, true);
  }

  function Operands(x: Body, y: Body, absorbing: bool): Body {
    if absorbing then Disj(x, y) else Conj(x, y)
  }

  /** The outcome of a binary body, from those of its operands. */
  lemma OperandsCompile(build: Build, x: Body, y: Body, start: Query, absorbing: bool)
    ensures var o := Compile(build, x, start); var p := Compile(build, y, o.builder);
      var left := LeftOperand(build, x, o, p);
      Compile(build, Operands(x, y, absorbing), start)
        == Outcome(if absorbing then Or(left, p.result) else And(left, p.result), p.builder, o.entry)
  {
  }

  lemma OpeningOfOperands(x: Body, y: Body, absorbing: bool)
    ensures var b := Operands(x, y, absorbing);
      First(b) == First(x) && FirstAccumulates(b) == FirstAccumulates(x) && FirstForces(b) == Keep(FirstForces(x), absorbing)
  {
  }

  /** The left operand's last comparison is false, so the accumulating one is dead. */
  lemma MissedBehindFalse(build: Build, x: Body, y: Body, start: Query, r: Row, s: Row, absorbing: bool)
    requires WellBuilt(x) && WellBuilt(y) && Distinct(y) && Conds(x) !! Conds(y)
    requires FirstAccumulates(y) && Last(x) !in r && Last(x) !in s
    requires AgreeOn(Conds(x), r, s) && AgreeOn(Conds(y) - {First(y)}, r, s)
    requires Same(r, s, start)
    ensures Missed(build, Operands(x, y, absorbing), start, First(y), r, s)
  {
    EndsAreConds(x);
    EndsAreConds(y);
    RunIsLocal(build, x, start, r, s);
    BuilderNeedsLast(build, x, start, r);
    BuilderNeedsLast(build, x, start, s);
    DeadOpening(build, y, Compile(build, x, start).builder, r, s);
    OperandsCompile(build, x, y, start, absorbing);
    assert First(Operands(x, y, absorbing)) == First(x) != First(y);
  }

  /** The accumulating comparison is false and shares its cell with the left operand. */
  lemma MissedBeforeFalse(x: Body, y: Body, start: Query, r: Row, s: Row)
    requires WellBuilt(x) && WellBuilt(y) && Distinct(y)
    requires x.Compare? && FirstAccumulates(y) && First(y) !in r && First(y) !in s
    requires AgreeOn(Conds(y), r, s)
    ensures Missed(SharedCell, Conj(x, y), start, First(x), r, s)
  {
    DeadOpening(SharedCell, y, Compile(SharedCell, x, start).builder, r, s);
  }

  lemma MissedInLeft(build: Build, x: Body, y: Body, start: Query, c: Cond, r: Row, s: Row, absorbing: bool)
    requires WellBuilt(y) && AgreeOn(Conds(y), r, s)
    requires !x.Compare? && Missed(build, x, start, c, r, s)
    ensures Missed(build, Operands(x, y, absorbing), start, c, r, s)
  {
    var o := Compile(build, x, start);
    var p := Compile(build, y, o.builder);
    RunIsLocal(build, y, o.builder, r, s);
    OperandsCompile(build, x, y, start, absorbing);
    assert Same(r, s, LeftOperand(build, x, o, p));
    OpeningOfOperands(x, y, absorbing);
  }

  lemma MissedInRight(build: Build, x: Body, y: Body, start: Query, c: Cond, r: Row, s: Row, absorbing: bool)
    requires WellBuilt(x) && WellBuilt(y) && Mergeable(build, x, y, absorbing)
    requires AgreeOn(Conds(x), r, s) && AgreeOn(Conds(y) - {c}, r, s) && Same(r, s, start)
    requires c !in Conds(x) && Missed(build, y, Compile(build, x, start).builder, c, r, s)
    ensures Missed(build, Operands(x, y, absorbing), start, c, r, s)
  {
    EndsAreConds(x);
    EndsAreConds(y);
    var o := Compile(build, x, start);
    var p := Compile(build, y, o.builder);
    RunIsLocal(build, x, start, r, s);
    EntryCell(build, y, o.builder);
    OperandsCompile(build, x, y, start, absorbing);
    assert First(Operands(x, y, absorbing)) != c;
    if build.SharedCell? && x.Compare? && FirstAccumulates(y) && First(y) == c {
      assert !absorbing && !Sat(r, p.result) && !Sat(s, p.result);
    } else {
      assert Same(r, s, LeftOperand(build, x, o, p));
    }
  }

  lemma {:induction false} ProbeIsMissedByOperands(build: Build, x: Body, y: Body, start: Query, r: Row,
      s: Row, absorbing: bool)
    requires WellBuilt(x) && WellBuilt(y) && Distinct(x) && Distinct(y) && Conds(x) !! Conds(y)
    requires !Admissible(build, x) || !Admissible(build, y) || !Mergeable(build, x, y, absorbing)
    requires var p := ProbeOfOperands(build, x, y, absorbing);
      Shows(Operands(x, y, absorbing), p, r, true) && Shows(Operands(x, y, absorbing), p, s, false)
    requires Same(r, s, start)
    ensures Missed(build, Operands(x, y, absorbing), start, ProbeOfOperands(build, x, y, absorbing).cond, r, s)
    decreases Size(x) + Size(y)
  {
    EndsAreConds(x);
    EndsAreConds(y);
    var c := ProbeOfOperands(build, x, y, absorbing).cond;
    assert Conds(Operands(x, y, absorbing)) == Conds(x) + Conds(y);
    if FirstAccumulates(y) && LastForces(x) != Always(absorbing) {
      MissedBehindFalse(build, x, y, start, r, s, absorbing);
    } else if !Mergeable(build, x, y, absorbing) {
      MissedBeforeFalse(x, y, start, r, s);
    } else if !Admissible(build, x) {
      ProbeIsMissed(build, x, start, r, s);
      MissedInLeft(build, x, y, start, c, r, s, absorbing);
    } else {
      RunIsLocal(build, x, start, r, s);
      ProbeIsMissed(build, y, Compile(build, x, start).builder, r, s);
      MissedInRight(build, x, y, start, c, r, s, absorbing);
    }
  }

  /** A row on which an inadmissible body over distinct conditions is compiled wrongly. */
  lemma MissingTheProbe(build: Build, b: Body) returns (row: Row)
    requires WellBuilt(b) && Distinct(b) && !Admissible(build, b)
    ensures Sat(row, WhereQuery(build, b)) != Truth(row, b)
  {
    var p := ProbeOf(build, b);
    var on, off := Switched(p.row, p.cond, true), Switched(p.row, p.cond, false);
    RoutedAsWritten(b);
    ProbeIsMissed(build, b, All, on, off);
    row := if Sat(on, WhereQuery(build, b)) != Truth(on, b) then on else off;
  }

  /** Every inadmissible body over independent comparisons selects wrongly: here is a row
      of a database that is selected though the expression is false of it, or is not
      selected though it is true. */
  lemma InadmissibleIsExposed(build: Build, b: Body) returns (db: Database, k: Key)
    requires WellBuilt(b) && Independent(b) && !Admissible(build, b)
    ensures Applies(db, k, b) && Navigable(db, k, b)
    ensures Sat(RowAt(db, k), WhereQuery(build, b)) != Truth(RowAt(db, k), b)
  {
    IndependentIsDistinct(b);
    IndependentIsUnrelated(b);
    RoutedAsWritten(b);
    var row := MissingTheProbe(build, b);
    var o := Realised(b, row);
    db, k := Stored(b, o);
    SeenIsEnough(db, k, b);
    TruthIsLocal(b, RowAt(db, k), row);
    RunIsLocal(build, b, All, RowAt(db, k), row);
  }

  /** `where` returns the right rows of every database. */
  ghost predicate SelectsRight(build: Build, b: Body) {
    forall db, k | Applies(db, k, b) :: Sat(RowAt(db, k), WhereQuery(build, b)) == Truth(RowAt(db, k), b)
  }

  /** The exact condition: `where` is right on every database if and only if the body is
      admissible for the build. */
  lemma WhereIsExact(build: Build, b: Body)
    requires WellBuilt(b) && Independent(b)
    ensures SelectsRight(build, b) <==> Admissible(build, b)
  {
    if Admissible(build, b) {
      WhereIsFaithful(build, b);
    } else {
      var db, k := InadmissibleIsExposed(build, b);
      assert Applies(db, k, b);
    }
  }

  // ----- single comparisons -----

  /** Rounding the operand does not matter: no `double` lies where it would. */
  predicate RoundedHarmlessly(t: Test) {
    t.rhs.LongReal? &&
    if t.rhs.exact < t.rhs.nearest then t.op == Less || t.op == GreaterEqual
    else t.op == Greater || t.op == LessEqual
  }

  /** A stored value for which a misbuilt comparison goes wrong. */
  ghost function WrongValue(path: seq<ColKey>, t: Test): (v: Value)
    requires Misbuilt(path, t) && !RoundedHarmlessly(t)
    requires Contingent(t) || (!Representable(t.rhs) && Offered(t))
    ensures Admits(t, v)
    ensures var e := Emitted(path, t);
      Says(t, v) != (LocationOf(e) == LocationAt(path, t) && Holds(e.op, v, e.rhs))
  {
    if t.rhs.Unsigned? then (if IsEquality(t.op) then Cast(t.rhs) else Int(TWO_TO_THE_63 - 1))
    else if t.rhs.LongReal? then Cast(t.rhs)
    else if t.kind.Link? then Null
    else if t.kind.AnyValue? && t.op == NotEqual then Bool(false)
    else var v :| Admits(t, v) && Says(t, v); v
  }

  /** The one condition of a single comparison, of a row that has only what it compares. */
  lemma EmittedOfRow(path: seq<ColKey>, t: Test, db: Database, k: Key, v: Value)
    requires var b, o := Compare(path, t), map[LocationAt(path, t) := v];
      && Carries(db, k, b) && Seen(db, k, b) == o
      && (forall p :: p in Nodes(b) ==> OnlyHas(db, k, p, o))
    ensures Meaning(path, t) in RowAt(db, k) <==> Says(t, v)
    ensures var e := Emitted(path, t);
      e in RowAt(db, k) <==> LocationOf(e) == LocationAt(path, t) && Holds(e.op, v, e.rhs)
  {
    PrefixesOf(path);
    var e, o: Object := Emitted(path, t), map[LocationAt(path, t) := v];
    assert OnlyHas(db, k, path, o) && OnlyHas(db, k, [], o);
    assert LocationAt(path, t) in Seen(db, k, Compare(path, t));
  }

  lemma HarmlessRounding(path: seq<ColKey>, t: Test, db: Database, k: Key)
    requires RoundedHarmlessly(t) && Applies(db, k, Compare(path, t))
    ensures Meaning(path, t) in RowAt(db, k) <==> Emitted(path, t) in RowAt(db, k)
  {
  }

  /** A single comparison selects the right rows of every database if and only if it is
      not misbuilt, rounding that does not matter apart. */
  lemma MisbuiltComparison(build: Build, path: seq<ColKey>, t: Test)
    requires Contingent(t) || (!Representable(t.rhs) && Offered(t))
    ensures SelectsRight(build, Compare(path, t)) <==> !Misbuilt(path, t) || RoundedHarmlessly(t)
  {
    var b := Compare(path, t);
    var q := WhereQuery(build, b);
    OneCondition(build, path, t);
    if RoundedHarmlessly(t) {
      forall db, k | Applies(db, k, b) ensures Sat(RowAt(db, k), q) == Truth(RowAt(db, k), b) {
        HarmlessRounding(path, t, db, k);
      }
    } else if Misbuilt(path, t) {
      var v := WrongValue(path, t);
      var db, k := Stored(b, map[LocationAt(path, t) := v]);
      EmittedOfRow(path, t, db, k, v);
      assert Applies(db, k, b) && Sat(RowAt(db, k), q) != Truth(RowAt(db, k), b);
    } else {
      WhereIsFaithful(build, b);
    }
  }

  /** What a single comparison selects: the rows whose value at the end of the path, null
      behind a null link, is related to the operand in the way the operator says. */
  lemma SelectedAsRelated(build: Build, path: seq<ColKey>, t: Test, db: Database, k: Key)
    requires !Misbuilt(path, t) && Applies(db, k, Compare(path, t))
    ensures Sat(RowAt(db, k), WhereQuery(build, Compare(path, t)))
            <==> Related(t.op, Seen(db, k, Compare(path, t))[LocationAt(path, t)], Denoted(t.rhs))
  {
    WhereIsFaithful(build, Compare(path, t));
    HoldsAsRelated(t.op, Seen(db, k, Compare(path, t))[LocationAt(path, t)], Denoted(t.rhs));
  }

  /** What a misbuilt one selects instead. Behind a link, `==` on a mixed property looks at a
      text column of the same key, and a dictionary entry is looked up in the row itself. */
  lemma SelectedInstead(build: Build, path: seq<ColKey>, t: Test, db: Database, k: Key)
    requires Misbuilt(path, t) && Carries(db, k, Compare(path, t))
    ensures var v := Read(db, k, LocationAt(path, t)).value;
      Sat(RowAt(db, k), WhereQuery(build, Compare(path, t))) <==>
      match t.kind
      case Plain => Related(t.op, v, if t.rhs.Unsigned? then Int(t.rhs.u - TWO_TO_THE_64) else Real(t.rhs.nearest))
      case OrderedOptional => Related(t.op, v, t.rhs)
      case Enumeration => Related(Greater, v, t.rhs)
      case Link => v != Null
      case AnyValue =>
        var text := Read(db, k, Location(path, TextColumn, t.col));
        if t.op == Equal then text.Some? && text.value == Denoted(t.rhs) else v != Null
      case DictionaryEntry(key) =>
        var entry := Read(db, k, Location([], EntryColumn(key), t.col));
        entry.Some? && Related(t.op, entry.value, t.rhs)
  {
    OneCondition(build, path, t);
    HoldsOfRow(db, k, Emitted(path, t));
  }

  lemma HoldsOfRow(db: Database, k: Key, c: Cond)
    ensures var v := Read(db, k, LocationOf(c)); c in RowAt(db, k) <==> v.Some? && Related(c.op, v.value, c.rhs)
  {
    var v := Read(db, k, LocationOf(c));
    if v.Some? {
      HoldsAsRelated(c.op, v.value, c.rhs);
    }
  }

  lemma OneCondition(build: Build, path: seq<ColKey>, t: Test)
    ensures forall row: Row :: Sat(row, WhereQuery(build, Compare(path, t))) <==> Emitted(path, t) in row
  {
    assert [] + path == path && Route(Compare(path, t), []).body == Compare(path, t);
  }

  /** The result of the comparison stands for the comparison, whatever the builder held. */
  ghost predicate StandsForItself(build: Build, path: seq<ColKey>, t: Test) {
    forall start: Query, row: Row ::
      Sat(row, Compile(build, Compare(path, t), start).result) == (Meaning(path, t) in row)
  }

  /** That is so of all comparisons but the direct ones of mixed properties and links, which
      add to the builder's current query. */
  lemma DirectOnesAccumulate(build: Build, path: seq<ColKey>, t: Test)
    requires !Misbuilt(path, t)
    ensures StandsForItself(build, path, t) <==> !(path == [] && (t.kind.AnyValue? || t.kind.Link?))
  {
    EmittedAsWritten(path, t);
    if path == [] && (t.kind.AnyValue? || t.kind.Link?) {
      var start, row := Not(All), iset{Meaning(path, t)};
      assert Compile(build, Compare(path, t), start).result == And(start, Leaf(Meaning(path, t)));
      assert Sat(row, Compile(build, Compare(path, t), start).result) != (Meaning(path, t) in row);
    }
  }

  /** The smallest wrong body: a comparison that stands for itself `||` a direct one of a
      mixed property or a link. The shared build selects the conjunction, the copying build
      drops the second part. */
  lemma DirectAfterOr(x: Body, m: Test)
    requires x.Compare? && WellBuilt(x) && !(x.path == [] && (x.test.kind.AnyValue? || x.test.kind.Link?))
    requires (m.kind.AnyValue? || m.kind.Link?) && !Misbuilt([], m)
    ensures var y := Compare([], m);
      forall row: Row ::
        && Sat(row, WhereQuery(SharedCell, Disj(x, y))) == (Truth(row, x) && Truth(row, y))
        && Sat(row, WhereQuery(DeepCopy, Disj(x, y))) == Truth(row, x)
  {
    var y := Compare([], m);
    var start, more := Leaf(Meaning(x.path, x.test)), Leaf(Meaning([], m));
    EmittedAsWritten(x.path, x.test);
    EmittedAsWritten([], m);
    forall build: Build
      ensures Compile(build, Disj(x, y), All).result
              == Or(if build.SharedCell? then And(start, more) else start, And(start, more))
    {
      var o := Compile(build, x, All);
      assert o == Outcome(start, start, All);
      assert Compile(build, y, start) == Outcome(And(start, more), And(start, more), And(start, more));
      OperandsCompile(build, x, y, All, true);
    }
    RoutedAsWritten(Disj(x, y));
    assert WhereQuery(SharedCell, Disj(x, y)) == Or(And(start, more), And(start, more));
    assert WhereQuery(DeepCopy, Disj(x, y)) == Or(start, And(start, more));
    forall row: Row
      ensures Sat(row, And(start, more)) == (Truth(row, x) && Truth(row, y)) && Sat(row, start) == Truth(row, x)
    {
    }
  }
}
