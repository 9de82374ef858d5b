/** The same operators evaluated at once on a live object instead of building a query:
    when the two modes agree, comparison by comparison and for whole bodies. */
module DualMode {
  import opened Bridge
  import opened Databases
  import opened Objects
  import opened QueryCompiler
  import opened QueryExactness
  import opened QueryLanguage

  // ----- one comparison -----

  /** Conversion of a stored integer to a 64-bit unsigned type. */
  function AsUnsigned(i: int): int
    requires IsInt64(i)
  {
    if i < 0 then i + TWO_TO_THE_64 else i
  }

  /** A comparison as C++ evaluates it on the stored value. Against an unsigned operand the
      stored integer is converted; a `long double` is not rounded; an empty optional is less
      than every value; a mixed value comes back as another alternative than an enumeration
      or an `int`; `!=` on a link only asks whether the link is set; `contains` does not
      look at its flag. */
  predicate Evaluated(t: Test, v: Value)
    requires Admits(t, v)
  {
    match t.kind
    case Plain =>
      if t.rhs.Unsigned? then CompareInts(t.op, AsUnsigned(v.i), t.rhs.u)
      else if t.rhs.LongReal? then CompareReals(t.op, v.r, t.rhs.exact)
      else if t.op.Contains? then Occurs(v.s, t.rhs.s)
      else Holds(t.op, v, t.rhs)
    case OrderedOptional =>
      if v.Null? && IsOrdering(t.op) then t.op == Less || t.op == LessEqual else Holds(t.op, v, t.rhs)
    case AnyValue =>
      if t.rhs.Narrow? then t.op == NotEqual else Holds(t.op, v, t.rhs)
    case Link =>
      if t.op == NotEqual then v != Null else Holds(t.op, v, t.rhs)
    case _ => Holds(t.op, v, t.rhs)
  }

  /** Whether the compiled comparison holds of an object with this value. */
  predicate Compiled(path: seq<ColKey>, t: Test, v: Value) {
    var c := Emitted(path, t);
    LocationOf(c) == LocationAt(path, t) && Holds(c.op, v, c.rhs)
  }

  /** The comparison is compiled to one about another column or path. */
  predicate Relocated(path: seq<ColKey>, t: Test) {
    path != [] && (t.kind.DictionaryEntry? || (t.kind.AnyValue? && t.op == Equal))
  }

  /** The values for which the two modes part. */
  predicate Strays(path: seq<ColKey>, t: Test, v: Value)
    requires Admits(t, v)
  {
    match t.kind
    case Plain =>
      || (t.rhs.Unsigned? && IsOrdering(t.op) && (v.i < 0) != (t.rhs.u >= TWO_TO_THE_63))
      || (!Representable(t.rhs) && t.rhs.LongReal? && v == Cast(t.rhs) && !RoundedHarmlessly(t))
      || (t.op == Contains(false) && Occurs(Fold(v.s), Fold(t.rhs.s)) && !Occurs(v.s, t.rhs.s))
    case OrderedOptional => v.Null? && (t.op == Less || t.op == LessEqual)
    case Enumeration => t.op == Less && v != t.rhs
    case AnyValue =>
      || (t.rhs.Narrow? && v == Cast(t.rhs))
      || (path != [] && t.op == NotEqual && t.rhs == Bool(false) && (v == Bool(false) || v == Null))
    case Link =>
      || (t.op == NotEqual && t.rhs != Null && (v == Null || v == t.rhs))
      || (path != [] && t.op == Equal && t.rhs == Null)
    case DictionaryEntry(_) => false
  }

  lemma FoldedOccurs(s: string, part: string)
    requires Occurs(s, part)
    ensures Occurs(Fold(s), Fold(part))
  {
    var i :| 0 <= i <= |s| && OccursAt(s, part, i);
    assert Fold(s)[i..i + |part|] == Fold(s[i..i + |part|]);
    assert OccursAt(Fold(s), Fold(part), i);
  }

  /** For one comparison and one stored value: the immediate result is that of the
      compiled comparison if and only if the value is not one of those. */
  lemma ComparisonAgreement(path: seq<ColKey>, t: Test, v: Value)
    requires Admits(t, v) && !Relocated(path, t)
    ensures Evaluated(t, v) == Compiled(path, t, v) <==> !Strays(path, t, v)
  {
    if t.op == Contains(false) && Occurs(v.s, t.rhs.s) {
      FoldedOccurs(v.s, t.rhs.s);
    }
  }

  /** What immediate evaluation of one comparison says: where the value does not stray, that
      it is related to the operand as the operator says, and otherwise that it is not. */
  lemma EvaluatedAsRelated(path: seq<ColKey>, t: Test, v: Value)
    requires Admits(t, v) && !Misbuilt(path, t)
    ensures Evaluated(t, v) == Related(t.op, v, Denoted(t.rhs)) <==> !Strays(path, t, v)
  {
    ComparisonAgreement(path, t, v);
    EmittedAsWritten(path, t);
    HoldsAsRelated(t.op, v, Denoted(t.rhs));
  }

  /** The comparisons for which some value strays: unsigned operands and optional values in
      an order, an enumeration or `int` compared with a mixed property, `contains` ignoring
      the case of a letter, and a link unequal to an object. */
  predicate Wavers(t: Test) {
    || (t.rhs.Unsigned? && IsOrdering(t.op))
    || (t.kind.OrderedOptional? && (t.op == Less || t.op == LessEqual))
    || t.rhs.Narrow?
    || (t.kind.Plain? && t.op == Contains(false) && t.rhs.Text? && HasLetter(t.rhs.s))
    || (t.kind.Link? && t.op == NotEqual && t.rhs != Null)
  }

  predicate IsLetter(c: char) {
    'A' <= c <= 'Z' || 'a' <= c <= 'z'
  }

  predicate HasLetter(s: string) {
    exists i :: 0 <= i < |s| && IsLetter(s[i])
  }

  /** The string with the case of one letter changed. */
  function Recased(s: string, i: nat): string
    requires i < |s| && IsLetter(s[i])
  {
    s[i := if s[i] <= 'Z' then FoldChar(s[i]) else s[i] - 'a' + 'A']
  }

  lemma RecasedStrays(s: string, i: nat)
    requires i < |s| && IsLetter(s[i])
    ensures Occurs(Fold(Recased(s, i)), Fold(s)) && !Occurs(Recased(s, i), s)
  {
    var r := Recased(s, i);
    assert Fold(r) == Fold(s);
    assert OccursAt(Fold(r), Fold(s), 0);
    assert r[0..|s|] == r && r[i] != s[i];
    assert forall j: nat :: OccursAt(r, s, j) ==> j == 0;
  }

  lemma UnlettedIsPlain(s: string, part: string)
    requires !HasLetter(part) && Occurs(Fold(s), Fold(part))
    ensures Occurs(s, part)
  {
    var i :| 0 <= i <= |s| && OccursAt(Fold(s), Fold(part), i);
    forall j | 0 <= j < |part| ensures s[i + j] == part[j] {
      assert Fold(s)[i..i + |part|][j] == Fold(part)[j];
    }
    assert OccursAt(s, part, i);
  }

  /** Of a comparison built as written, some value strays if and only if it is one of these. */
  lemma WaveringIsExact(path: seq<ColKey>, t: Test)
    requires Offered(t) && !Misbuilt(path, t)
    ensures (exists v | Admits(t, v) :: Strays(path, t, v)) <==> Wavers(t)
  {
    if Wavers(t) {
      var v := StrayValue(t);
      assert Strays(path, t, v);
    } else {
      forall v | Admits(t, v) ensures !Strays(path, t, v) {
        if t.kind.Plain? && t.op == Contains(false) && Occurs(Fold(v.s), Fold(t.rhs.s)) {
          UnlettedIsPlain(v.s, t.rhs.s);
        }
      }
    }
  }

  ghost function StrayValue(t: Test): (v: Value)
    requires Offered(t) && Wavers(t) && !Misbuilt([], t)
    ensures Admits(t, v) && Strays([], t, v)
  {
    if t.rhs.Unsigned? then Int(-1)
    else if t.rhs.Narrow? then Cast(t.rhs)
    else if t.op.Contains? then
      var i :| 0 <= i < |t.rhs.s| && IsLetter(t.rhs.s[i]);
      RecasedStrays(t.rhs.s, i);
      Text(Recased(t.rhs.s, i))
    else Null
  }

  // ----- whole bodies -----

  /** The operators' immediate results on an object; `||` computes a conjunction. */
  predicate Immediate(o: Object, b: Body)
    requires Conforms(o, b)
  {
    match b
    case Compare(path, t) => Evaluated(t, o[LocationAt(path, t)])
    case Conj(x, y) => Immediate(o, x) && Immediate(o, y)
    case Disj(x, y) => Immediate(o, x) && Immediate(o, y)
    case Neg(x) => !Immediate(o, x)
  }

  predicate NoDisj(b: Body) {
    match b
    case Compare(_, _) => true
    case Conj(x, y) => NoDisj(x) && NoDisj(y)
    case Disj(_, _) => false
    case Neg(x) => NoDisj(x)
  }

  predicate NoNeg(b: Body) {
    match b
    case Compare(_, _) => true
    case Conj(x, y) => NoNeg(x) && NoNeg(y)
    case Disj(x, y) => NoNeg(x) && NoNeg(y)
    case Neg(_) => false
  }

  /** None of the object's values strays. */
  predicate NothingStrays(o: Object, b: Body)
    requires Conforms(o, b)
  {
    match b
    case Compare(path, t) => !Strays(path, t, o[LocationAt(path, t)])
    case Conj(x, y) => NothingStrays(o, x) && NothingStrays(o, y)
    case Disj(x, y) => NothingStrays(o, x) && NothingStrays(o, y)
    case Neg(x) => NothingStrays(o, x)
  }

  predicate NothingWavers(b: Body) {
    match b
    case Compare(_, t) => !Wavers(t)
    case Conj(x, y) => NothingWavers(x) && NothingWavers(y)
    case Disj(x, y) => NothingWavers(x) && NothingWavers(y)
    case Neg(x) => NothingWavers(x)
  }

  /** On a well-built body immediate evaluation is the expression's truth without `||`,
      and implies it without `!`, as far as no value strays. */
  lemma {:induction false} ImmediateTruth(o: Object, b: Body)
    requires WellBuilt(b) && Conforms(o, b) && NothingStrays(o, b)
    ensures NoDisj(b) ==> Immediate(o, b) == Truth(RowOf(o), b)
    ensures NoNeg(b) && Immediate(o, b) ==> Truth(RowOf(o), b)
  {
    match b
    case Compare(path, t) =>
      EmittedAsWritten(path, t);
      ComparisonAgreement(path, t, o[LocationAt(path, t)]);
    case Neg(x) => ImmediateTruth(o, x);
    case Conj(x, y) => ImmediateTruth(o, x); ImmediateTruth(o, y);
    case Disj(x, y) => ImmediateTruth(o, x); ImmediateTruth(o, y);
  }

  /** The body with every `||` replaced by `&&`. */
  function AsConj(b: Body): Body {
    match b
    case Compare(_, _) => b
    case Conj(x, y) => Conj(AsConj(x), AsConj(y))
    case Disj(x, y) => Conj(AsConj(x), AsConj(y))
    case Neg(x) => Neg(AsConj(x))
  }

  lemma {:induction false} AsConjIsAlike(b: Body)
    ensures Conds(AsConj(b)) == Conds(b) && (WellBuilt(b) ==> WellBuilt(AsConj(b)))
  {
    match b
    case Compare(_, _) =>
    case Neg(x) => AsConjIsAlike(x);
    case Conj(x, y) => AsConjIsAlike(x); AsConjIsAlike(y);
    case Disj(x, y) => AsConjIsAlike(x); AsConjIsAlike(y);
  }

  /** What immediate evaluation computes: the truth of that body. */
  lemma {:induction false} ImmediateConjunction(o: Object, b: Body)
    requires WellBuilt(b) && Conforms(o, b) && NothingStrays(o, b)
    ensures Immediate(o, b) == Truth(RowOf(o), AsConj(b))
  {
    match b
    case Compare(path, t) =>
      EmittedAsWritten(path, t);
      ComparisonAgreement(path, t, o[LocationAt(path, t)]);
    case Neg(x) => ImmediateConjunction(o, x);
    case Conj(x, y) => ImmediateConjunction(o, x); ImmediateConjunction(o, y);
    case Disj(x, y) => ImmediateConjunction(o, x); ImmediateConjunction(o, y);
  }

  /** Evaluating a body on a live object and running the compiled query on its row. The
      immediate answer is the truth of the body with `&&` for `||`, and so the answer of the
      query of that body. It is the same answer without `||`; without `!`, immediate truth
      implies a match. */
  lemma DualModeAgreement(build: Build, b: Body, db: Database, k: Key)
    requires WellBuilt(b) && Admissible(build, b) && Applies(db, k, b) && Navigable(db, k, b)
    requires Conforms(Seen(db, k, b), b) && NothingStrays(Seen(db, k, b), b)
    ensures ImmediateAt(db, k, b) == Truth(RowAt(db, k), AsConj(b))
    ensures Admissible(build, AsConj(b)) ==> ImmediateAt(db, k, b) == Sat(RowAt(db, k), WhereQuery(build, AsConj(b)))
    ensures NoDisj(b) ==> ImmediateAt(db, k, b) == Sat(RowAt(db, k), WhereQuery(build, b))
    ensures NoNeg(b) && ImmediateAt(db, k, b) ==> Sat(RowAt(db, k), WhereQuery(build, b))
  {
    ImmediateTruth(Seen(db, k, b), b);
    ImmediateConjunction(Seen(db, k, b), b);
    AsConjIsAlike(b);
    SeenIsEnough(db, k, b);
    TruthIsLocal(b, RowAt(db, k), RowOf(Seen(db, k, b)));
    TruthIsLocal(AsConj(b), RowAt(db, k), RowOf(Seen(db, k, b)));
    WhereIsFaithful(build, b);
    if Admissible(build, AsConj(b)) {
      WhereIsFaithful(build, AsConj(b));
    }
  }

  /** A direct `!=` on a link agrees with the compiled one exactly when it is compared with
      null, or the link is set to another object. */
  lemma LinkInequality(build: Build, t: Test, db: Database, k: Key)
    requires t.kind.Link? && t.op == NotEqual && Applies(db, k, Compare([], t))
    ensures var v := Seen(db, k, Compare([], t))[LocationAt([], t)];
      ImmediateAt(db, k, Compare([], t)) == Sat(RowAt(db, k), WhereQuery(build, Compare([], t)))
      <==> t.rhs == Null || (v != Null && v != t.rhs)
  {
    var b := Compare([], t);
    var o := Seen(db, k, b);
    SeenConforms(db, k, b, o);
    EmittedAsWritten([], t);
    ComparisonAgreement([], t, o[LocationAt([], t)]);
    SeenIsEnough(db, k, b);
    TruthIsLocal(b, RowAt(db, k), RowOf(o));
    WhereIsFaithful(build, b);
  }

  lemma {:induction false} ImmediateIsLocal(b: Body, o: Object, o': Object)
    requires Conforms(o, b) && Conforms(o', b) && AgreeAt(Locations(b), o, o')
    ensures Immediate(o, b) == Immediate(o', b)
  {
    match b
    case Compare(path, t) => assert LocationAt(path, t) in Locations(b);
    case Neg(x) => ImmediateIsLocal(x, o, o');
    case Conj(x, y) => ImmediateIsLocal(x, o, o'); ImmediateIsLocal(y, o, o');
    case Disj(x, y) => ImmediateIsLocal(x, o, o'); ImmediateIsLocal(y, o, o');
  }

  /** An object with just the properties of the body. */
  ghost predicate Suits(o: Object, b: Body) {
    o.Keys == Locations(b) && Conforms(o, b)
  }

  /** Both modes of each operand carry over to the joined object. */
  lemma JoinedModes(x: Body, y: Body, o: Object, p: Object)
    requires Locations(x) !! Locations(y) && Suits(o, x) && Suits(p, y)
    ensures (o + p).Keys == Locations(x) + Locations(y) && Conforms(o + p, x) && Conforms(o + p, y)
    ensures Immediate(o + p, x) == Immediate(o, x) && Immediate(o + p, y) == Immediate(p, y)
    ensures Truth(RowOf(o + p), x) == Truth(RowOf(o), x) && Truth(RowOf(o + p), y) == Truth(RowOf(p), y)
  {
    Joined(x, y, o, p);
    ImmediateIsLocal(x, o, o + p);
    ImmediateIsLocal(y, p, o + p);
    RowIsLocal(x, o, o + p);
    RowIsLocal(y, p, o + p);
    TruthIsLocal(x, RowOf(o), RowOf(o + p));
    TruthIsLocal(y, RowOf(p), RowOf(o + p));
  }

  /** An object giving the body the wanted truth value. */
  ghost function With(b: Body, want: bool): (o: Object)
    requires Independent(b)
    ensures Suits(o, b) && Truth(RowOf(o), b) == want
  {
    IndependentIsDistinct(b);
    var o := Realised(b, Choose(b, want));
    TruthIsLocal(b, RowOf(o), Choose(b, want));
    o
  }

  ghost predicate Parts(o: Object, b: Body) {
    Suits(o, b) && Immediate(o, b) != Truth(RowOf(o), b)
  }

  /** A conjunction parts on some object if one operand does: the other one is made true,
      unless that makes its immediate result false, which parts the modes by itself. */
  lemma PartedConjunction(x: Body, y: Body, o: Object) returns (p: Object)
    requires Independent(x) && Independent(y) && Locations(x) !! Locations(y) && Parts(o, x)
    ensures Parts(p, Conj(x, y)) && Parts(p, Conj(y, x))
  {
    var c := With(y, true);
    p := o + c;
    JoinedModes(x, y, o, c);
    if Immediate(o, x) && !Immediate(c, y) {
      var a := With(x, true);
      p := a + c;
      JoinedModes(x, y, a, c);
    }
  }

  /** A disjunction always parts on some object. */
  lemma PartedDisjunction(x: Body, y: Body) returns (p: Object)
    requires Independent(x) && Independent(y) && Locations(x) !! Locations(y)
    ensures Parts(p, Disj(x, y))
  {
    var a, a' := With(x, true), With(x, false);
    var c, c' := With(y, true), With(y, false);
    JoinedModes(x, y, a, c');
    JoinedModes(x, y, a', c');
    JoinedModes(x, y, a', c);
    p := if Parts(a + c', Disj(x, y)) then a + c' else if Parts(a' + c', Disj(x, y)) then a' + c' else a' + c;
  }

  /** An object on which a body with a `||` or a wavering comparison is misjudged. */
  lemma {:induction false} Misjudged(b: Body) returns (o: Object)
    requires WellBuilt(b) && Independent(b) && !(NoDisj(b) && NothingWavers(b))
    ensures Parts(o, b)
    decreases b
  {
    match b
    case Compare(path, t) =>
      var v := StrayValue(t);
      o := map[LocationAt(path, t) := v];
      EmittedAsWritten(path, t);
      ComparisonAgreement(path, t, v);
    case Neg(x) =>
      o := Misjudged(x);
    case Conj(x, y) =>
      if NoDisj(x) && NothingWavers(x) {
        var p := Misjudged(y);
        o := PartedConjunction(y, x, p);
      } else {
        var p := Misjudged(x);
        o := PartedConjunction(x, y, p);
      }
    case Disj(x, y) =>
      o := PartedDisjunction(x, y);
  }

  lemma {:induction false} SteadyBodies(o: Object, b: Body)
    requires WellBuilt(b) && Conforms(o, b) && NothingWavers(b)
    ensures NothingStrays(o, b)
  {
    match b
    case Compare(path, t) => WaveringIsExact(path, t);
    case Neg(x) => SteadyBodies(o, x);
    case Conj(x, y) => SteadyBodies(o, x); SteadyBodies(o, y);
    case Disj(x, y) => SteadyBodies(o, x); SteadyBodies(o, y);
  }

  /** Immediate evaluation on a row of a database, no link on the way being null. */
  ghost predicate ImmediateAt(db: Database, k: Key, b: Body)
    requires Applies(db, k, b) && Navigable(db, k, b)
  {
    SeenConforms(db, k, b, Seen(db, k, b));
    Immediate(Seen(db, k, b), b)
  }

  /** The two modes agree on every row of every database. */
  ghost predicate ModesAgree(build: Build, b: Body) {
    forall db, k | Applies(db, k, b) && Navigable(db, k, b) ::
      ImmediateAt(db, k, b) == Sat(RowAt(db, k), WhereQuery(build, b))
  }

  /** The exact condition: the two modes agree on every row of every database if and only
      if the body has no `||` and no comparison that wavers. */
  lemma ImmediateIsExact(build: Build, b: Body)
    requires WellBuilt(b) && Admissible(build, b) && Independent(b)
    ensures ModesAgree(build, b) <==> NoDisj(b) && NothingWavers(b)
  {
    WhereIsFaithful(build, b);
    if NoDisj(b) && NothingWavers(b) {
      forall db, k | Applies(db, k, b) && Navigable(db, k, b)
        ensures ImmediateAt(db, k, b) == Sat(RowAt(db, k), WhereQuery(build, b))
      {
        SteadyRow(build, b, db, k);
      }
    } else {
      var db, k := MisjudgedRow(b);
      assert Applies(db, k, b) && Navigable(db, k, b);
    }
  }

  lemma SteadyRow(build: Build, b: Body, db: Database, k: Key)
    requires WellBuilt(b) && Admissible(build, b) && NoDisj(b) && NothingWavers(b)
    requires Applies(db, k, b) && Navigable(db, k, b)
    ensures ImmediateAt(db, k, b) == Sat(RowAt(db, k), WhereQuery(build, b))
  {
    SeenConforms(db, k, b, Seen(db, k, b));
    SteadyBodies(Seen(db, k, b), b);
    DualModeAgreement(build, b, db, k);
  }

  /** A row of a database on which such a body is misjudged. */
  lemma MisjudgedRow(b: Body) returns (db: Database, k: Key)
    requires WellBuilt(b) && Independent(b) && !(NoDisj(b) && NothingWavers(b))
    ensures Applies(db, k, b) && Navigable(db, k, b) && ImmediateAt(db, k, b) != Truth(RowAt(db, k), b)
  {
    var o := Misjudged(b);
    IndependentIsUnrelated(b);
    db, k := Stored(b, o);
    SeenIsEnough(db, k, b);
    TruthIsLocal(b, RowAt(db, k), RowOf(o));
  }
}
