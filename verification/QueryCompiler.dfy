/** What running a `where` lambda once does to the shared builder, as a function
    on query trees, and when the resulting query means what the lambda says. */
module QueryCompiler {
  import opened Bridge
  import opened QueryLanguage

  /** `result` is the query of the rbool the body returns, `builder` the query the
      builder is left with, and `entry` the final content of the cell the builder
      pointed at when the body started. */
  datatype Outcome = Outcome(result: Query, builder: Query, entry: Query)

  /** Runs a body, left operand first, on a builder whose current query is `start`.
      The rbool of a single comparison shares its cell with the builder, so what the
      right operand's first comparison adds in place reaches the left operand too. */
  function Compile(build: Build, b: Body, start: Query): Outcome {
    match b
    case Compare(path, t) =>
      var c := Leaf(Emitted(path, t));
      if Accumulates(path, t) then Outcome(And(start, c), And(start, c), And(start, c))
      else Outcome(c, c, start)
    case Neg(x) =>
      var o := Compile(build, x, start);
      o.(result := Not(o.result))
    case Conj(x, y) =>
      var o := Compile(build, x, start);
      var p := Compile(build, y, o.builder);
      Outcome(And(LeftOperand(build, x, o, p), p.result), p.builder, o.entry)
    case Disj(x, y) =>
      var o := Compile(build, x, start);
      var p := Compile(build, y, o.builder);
      Outcome(Or(LeftOperand(build, x, o, p), p.result), p.builder, o.entry)
  }

  /** The left operand's query once the right operand has been evaluated. */
  function LeftOperand(build: Build, x: Body, o: Outcome, p: Outcome): Query {
    if build.SharedCell? && x.Compare? then p.entry else o.result
  }

  datatype Routed = Routed(body: Body, chain: seq<ColKey>)

  /** The body as the builder sees it, and the chain it leaves pending: links navigated
      for a dictionary-key comparison stay pending for the comparison after it. */
  function Route(b: Body, chain: seq<ColKey>): Routed {
    match b
    case Compare(path, t) => Routed(Compare(chain + path, t), ChainAfter(chain + path, t))
    case Neg(x) =>
      var r := Route(x, chain);
      Routed(Neg(r.body), r.chain)
    case Conj(x, y) =>
      var r := Route(x, chain);
      var s := Route(y, r.chain);
      Routed(Conj(r.body, s.body), s.chain)
    case Disj(x, y) =>
      var r := Route(x, chain);
      var s := Route(y, r.chain);
      Routed(Disj(r.body, s.body), s.chain)
  }

  /** Well-built bodies are seen as they were written. */
  lemma {:induction false} RoutedAsWritten(b: Body)
    requires WellBuilt(b)
    ensures Route(b, []) == Routed(b, [])
  {
    match b
    case Compare(path, _) => assert [] + path == path;
    case Neg(x) => RoutedAsWritten(x);
    case Conj(x, y) => RoutedAsWritten(x); RoutedAsWritten(y);
    case Disj(x, y) => RoutedAsWritten(x); RoutedAsWritten(y);
  }

  /** The query `where` extracts: the builder starts on the empty query. */
  function WhereQuery(build: Build, b: Body): Query {
    Compile(build, Route(b, []).body, All).result
  }

  function First(b: Body): Cond {
    match b
    case Compare(path, t) => Meaning(path, t)
    case Conj(x, _) => First(x)
    case Disj(x, _) => First(x)
    case Neg(x) => First(x)
  }

  predicate FirstAccumulates(b: Body) {
    match b
    case Compare(path, t) => Accumulates(path, t)
    case Conj(x, _) => FirstAccumulates(x)
    case Disj(x, _) => FirstAccumulates(x)
    case Neg(x) => FirstAccumulates(x)
  }

  function Last(b: Body): Cond {
    match b
    case Compare(path, t) => Meaning(path, t)
    case Conj(_, y) => Last(y)
    case Disj(_, y) => Last(y)
    case Neg(x) => Last(x)
  }

  datatype Forced = Free | Always(value: bool)

  function Flip(f: Forced): Forced {
    if f.Free? then Free else Always(!f.value)
  }

  function Keep(f: Forced, value: bool): Forced {
    if f == Always(value) then f else Free
  }

  /** The value, if any, that the body takes as soon as its first comparison is false. */
  function FirstForces(b: Body): Forced {
    match b
    case Compare(_, _) => Always(false)
    case Conj(x, _) => Keep(FirstForces(x), false)
    case Disj(x, _) => Keep(FirstForces(x), true)
    case Neg(x) => Flip(FirstForces(x))
  }

  /** The same for its last comparison. */
  function LastForces(b: Body): Forced {
    match b
    case Compare(_, _) => Always(false)
    case Conj(_, y) => Keep(LastForces(y), false)
    case Disj(_, y) => Keep(LastForces(y), true)
    case Neg(x) => Flip(LastForces(x))
  }

  /** An accumulating comparison that opens a right operand drags in the comparison
      before it. That is harmless when the earlier comparison being false already
      settles the operator; and, where the left operand is that very comparison and
      shares its cell, when the later one being false settles it as well. */
  predicate Mergeable(build: Build, x: Body, y: Body, absorbing: bool) {
    FirstAccumulates(y) ==>
      && LastForces(x) == Always(absorbing)
      && (build.SharedCell? && x.Compare? ==> FirstForces(y) == Always(absorbing))
  }

  predicate Admissible(build: Build, b: Body) {
    match b
    case Compare(_, _) => true
    case Neg(x) => Admissible(build, x)
    case Conj(x, y) => Admissible(build, x) && Admissible(build, y) && Mergeable(build, x, y, false)
    case Disj(x, y) => Admissible(build, x) && Admissible(build, y) && Mergeable(build, x, y, true)
  }

  lemma {:induction false} EntryCell(build: Build, b: Body, start: Query)
    requires WellBuilt(b)
    ensures Compile(build, b, start).entry == if FirstAccumulates(b) then And(start, Leaf(First(b))) else start
  {
    match b
    case Compare(path, t) => EmittedAsWritten(path, t);
    case Neg(x) => EntryCell(build, x, start);
    case Conj(x, _) => EntryCell(build, x, start);
    case Disj(x, _) => EntryCell(build, x, start);
  }

  lemma {:induction false} FirstFalseForces(row: Row, b: Body)
    requires First(b) !in row
    ensures FirstForces(b).Always? ==> Truth(row, b) == FirstForces(b).value
  {
    match b
    case Compare(_, _) =>
    case Neg(x) => FirstFalseForces(row, x);
    case Conj(x, _) => FirstFalseForces(row, x);
    case Disj(x, _) => FirstFalseForces(row, x);
  }

  /** The invariant of a run. A start query the row does not satisfy can only hurt a
      body that opens with an accumulating comparison, and then acts as if that
      comparison were false; a builder left unsatisfied tells the body's value
      whenever its last comparison can settle it. */
  lemma {:induction false} RunInvariant(build: Build, b: Body, start: Query, row: Row)
    requires WellBuilt(b) && Admissible(build, b)
    ensures var o := Compile(build, b, start);
      && (Sat(row, start) || !FirstAccumulates(b) ==> Sat(row, o.result) == Truth(row, b))
      && (!Sat(row, start) && FirstAccumulates(b) && FirstForces(b).Always? ==> Sat(row, o.result) == FirstForces(b).value)
      && (!Sat(row, o.builder) && LastForces(b).Always? ==> Sat(row, o.result) == LastForces(b).value)
    decreases Size(b)
  {
    match b
    case Compare(path, t) =>
      EmittedAsWritten(path, t);
    case Neg(x) =>
      RunInvariant(build, x, start, row);
    case Conj(x, y) =>
      OperandInvariant(build, x, y, start, row, false);
    case Disj(x, y) =>
      OperandInvariant(build, x, y, start, row, true);
  }

  /** The step of `RunInvariant` common to both operators. */
  lemma {:induction false} OperandInvariant(build: Build, x: Body, y: Body, start: Query, row: Row, absorbing: bool)
    requires WellBuilt(x) && WellBuilt(y) && Admissible(build, x) && Admissible(build, y)
    requires Mergeable(build, x, y, absorbing)
    ensures var o := Compile(build, x, start); var p := Compile(build, y, o.builder);
      var left := Sat(row, LeftOperand(build, x, o, p));
      var right := Sat(row, p.result);
      && (Sat(row, start) || !FirstAccumulates(x) ==>
            (left == absorbing || right == absorbing) == (Truth(row, x) == absorbing || Truth(row, y) == absorbing))
      && (!Sat(row, start) && FirstAccumulates(x) && FirstForces(x) == Always(absorbing) ==>
            left == absorbing || right == absorbing)
      && (!Sat(row, p.builder) && LastForces(y) == Always(absorbing) ==> right == absorbing)
    decreases Size(x) + Size(y)
  {
    var o := Compile(build, x, start);
    RunInvariant(build, x, start, row);
    RunInvariant(build, y, o.builder, row);
    EntryCell(build, y, o.builder);
    if First(y) !in row {
      FirstFalseForces(row, y);
    }
  }

  /** Query compilation preserves meaning for every admissible body. */
  lemma WhereIsFaithful(build: Build, b: Body)
    requires WellBuilt(b) && Admissible(build, b)
    ensures forall row: Row :: Sat(row, WhereQuery(build, b)) == Truth(row, b)
  {
    RoutedAsWritten(b);
    forall row: Row ensures Sat(row, WhereQuery(build, b)) == Truth(row, b) {
      RunInvariant(build, b, All, row);
    }
  }

  /** Bodies whose comparisons all start from a fresh query. */
  predicate AllFresh(b: Body) {
    match b
    case Compare(path, t) => !Accumulates(path, t)
    case Conj(x, y) => AllFresh(x) && AllFresh(y)
    case Disj(x, y) => AllFresh(x) && AllFresh(y)
    case Neg(x) => AllFresh(x)
  }

  predicate OnlyConj(b: Body) {
    match b
    case Compare(_, _) => true
    case Conj(x, y) => OnlyConj(x) && OnlyConj(y)
    case Disj(_, _) => false
    case Neg(_) => false
  }

  /** Core's tree for the expression itself. */
  function Written(b: Body): Query {
    match b
    case Compare(path, t) => Leaf(Emitted(path, t))
    case Conj(x, y) => And(Written(x), Written(y))
    case Disj(x, y) => Or(Written(x), Written(y))
    case Neg(x) => Not(Written(x))
  }

  /** Over fresh comparisons both builds produce the very tree the expression denotes,
      whatever the builder held before, and never touch a cell that existed before. */
  lemma {:induction false} FreshBodiesCompileLiterally(build: Build, b: Body, start: Query)
    requires AllFresh(b)
    ensures Compile(build, b, start).result == Written(b)
    ensures Compile(build, b, start).entry == start
    ensures b.Compare? ==> Compile(build, b, start).builder == Written(b)
    ensures !FirstAccumulates(b) && Admissible(build, b)
  {
    match b
    case Compare(_, _) =>
    case Neg(x) =>
      FreshBodiesCompileLiterally(build, x, start);
    case Conj(x, y) =>
      FreshBodiesCompileLiterally(build, x, start);
      FreshBodiesCompileLiterally(build, y, Compile(build, x, start).builder);
    case Disj(x, y) =>
      FreshBodiesCompileLiterally(build, x, start);
      FreshBodiesCompileLiterally(build, y, Compile(build, x, start).builder);
  }

  /** A body built with `&&` alone may mix fresh and accumulating comparisons freely. */
  lemma {:induction false} ConjunctionsAreAdmissible(build: Build, b: Body)
    requires OnlyConj(b)
    ensures Admissible(build, b)
    ensures FirstForces(b) == LastForces(b) == Always(false)
  {
    if b.Conj? {
      ConjunctionsAreAdmissible(build, b.left);
      ConjunctionsAreAdmissible(build, b.right);
    }
  }

  lemma {:induction false} SharedAdmissibleIsDeepAdmissible(b: Body)
    requires Admissible(SharedCell, b)
    ensures Admissible(DeepCopy, b)
  {
    match b
    case Compare(_, _) =>
    case Neg(x) => SharedAdmissibleIsDeepAdmissible(x);
    case Conj(x, y) => SharedAdmissibleIsDeepAdmissible(x); SharedAdmissibleIsDeepAdmissible(y);
    case Disj(x, y) => SharedAdmissibleIsDeepAdmissible(x); SharedAdmissibleIsDeepAdmissible(y);
  }

  /** The two storage builds agree on every body the shared build gets right. */
  lemma BuildsAgree(b: Body)
    requires WellBuilt(b) && Admissible(SharedCell, b)
    ensures forall row: Row :: Sat(row, WhereQuery(SharedCell, b)) == Sat(row, WhereQuery(DeepCopy, b))
  {
    SharedAdmissibleIsDeepAdmissible(b);
    WhereIsFaithful(SharedCell, b);
    WhereIsFaithful(DeepCopy, b);
  }
}
