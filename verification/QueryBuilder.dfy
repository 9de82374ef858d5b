/** The builder itself: heap cells holding core queries, rbools pointing at them,
    and `where`, which runs a lambda body on one shared builder. The methods update
    cells in place as the bridge does; `Evaluate` shows that all the aliasing this
    creates is exactly what `QueryCompiler.Compile` accounts for. */
module QueryBuilder {
  import opened Bridge
  import opened QueryLanguage
  import opened QueryCompiler

  class CoreQuery {
    var tree: Query

    constructor (tree: Query)
      ensures this.tree == tree
    {
      this.tree := tree;
    }
  }

  /** Copying a bridge query: the same cell, or a cell of its own. */
  method CopyQuery(build: Build, q: CoreQuery) returns (c: CoreQuery)
    ensures c.tree == q.tree
    ensures if build.SharedCell? then c == q else fresh(c)
  {
    if build.SharedCell? {
      c := q;
    } else {
      c := new CoreQuery(q.tree);
    }
  }

  class Rbool {
    const build: Build
    var q: CoreQuery
    var chain: seq<ColKey>

    constructor (build: Build, q: CoreQuery)
      ensures this.build == build && this.q == q && chain == []
    {
      this.build := build;
      this.q := q;
      this.chain := [];
    }

    /** The copy constructor takes the query only; a pending chain is not copied. */
    constructor Copy(r: Rbool)
      ensures build == r.build && chain == [] && q.tree == r.q.tree
      ensures if build.SharedCell? then q == r.q else fresh(q)
    {
      var c := CopyQuery(r.build, r.q);
      build := r.build;
      q := c;
      chain := [];
    }

    method AddLinkChain(col: ColKey)
      modifies this`chain
      ensures chain == old(chain) + [col]
    {
      chain := chain + [col];
    }

    /** Any comparison operator of a managed property in query mode. */
    method Compare(t: Test) returns (r: Rbool)
      modifies this`q, this`chain, q
      ensures fresh(r) && r.build == build && r.chain == []
      ensures fresh(q) && chain == ChainAfter(old(chain), t)
      ensures q.tree == Compile(build, Body.Compare(old(chain), t), old(q.tree)).builder
      ensures old(q).tree == Compile(build, Body.Compare(old(chain), t), old(q.tree)).entry
      ensures fresh(r.q) && r.q.tree == q.tree && (r.q == q <==> build.SharedCell?)
    {
      var c := Leaf(Emitted(chain, t));
      if Accumulates(chain, t) {
        q.tree := And(q.tree, c);
        q := new CoreQuery(q.tree);
      } else {
        q := new CoreQuery(c);
      }
      chain := ChainAfter(chain, t);
      r := new Rbool.Copy(this);
    }

    /** `!`: the operand gets a new cell with the negated query. */
    method Negate() returns (r: Rbool)
      modifies this`q
      ensures fresh(q) && q.tree == Not(old(q.tree))
      ensures fresh(r) && r.build == build && r.chain == []
      ensures fresh(r.q) && r.q.tree == q.tree
    {
      q := new CoreQuery(Not(q.tree));
      r := new Rbool.Copy(this);
    }

    /** `&&`: the left operand's cell is updated in place. */
    method AndQuery(rhs: Rbool) returns (r: Rbool)
      modifies q
      ensures q.tree == And(old(q.tree), old(rhs.q.tree))
      ensures fresh(r) && r.build == build && r.chain == []
      ensures r.q.tree == q.tree && if build.SharedCell? then r.q == q else fresh(r.q)
    {
      q.tree := And(q.tree, rhs.q.tree);
      r := new Rbool.Copy(this);
    }

    /** `||`: the left operand is pointed at a new cell. */
    method OrQuery(rhs: Rbool) returns (r: Rbool)
      modifies this`q
      ensures fresh(q) && q.tree == Or(old(q.tree), old(rhs.q.tree))
      ensures fresh(r) && r.build == build && r.chain == []
      ensures fresh(r.q) && r.q.tree == q.tree
    {
      q := new CoreQuery(Or(q.tree, rhs.q.tree));
      r := new Rbool.Copy(this);
    }
  }

  /** Runs a body on a builder in any state. Of the cells that existed before, only the
      one the builder pointed at may have changed, and the builder moves on to a new one. */
  method Evaluate(builder: Rbool, b: Body) returns (r: Rbool)
    modifies builder`q, builder`chain, builder.q
    ensures builder.chain == Route(b, old(builder.chain)).chain && r.chain == []
    ensures fresh(r) && r.build == builder.build && fresh(r.q) && fresh(builder.q)
    ensures r.q == builder.q <==> builder.build.SharedCell? && b.Compare?
    ensures var o := Compile(builder.build, Route(b, old(builder.chain)).body, old(builder.q.tree));
      r.q.tree == o.result && builder.q.tree == o.builder && old(builder.q).tree == o.entry
    decreases b
  {
    match b
    case Compare(path, t) =>
      ghost var before := builder.q;
      ghost var start := builder.q.tree;
      for i := 0 to |path|
        invariant builder.chain == old(builder.chain) + path[..i] && builder.q == before && builder.q.tree == start
      {
        builder.AddLinkChain(path[i]);
      }
      assert path[..|path|] == path;
      r := builder.Compare(t);
    case Neg(x) =>
      var operand := Evaluate(builder, x);
      r := operand.Negate();
    case Conj(x, y) =>
      var left := Evaluate(builder, x);
      var right := Evaluate(builder, y);
      r := left.AndQuery(right);
    case Disj(x, y) =>
      var left := Evaluate(builder, x);
      var right := Evaluate(builder, y);
      r := left.OrQuery(right);
  }

  /** `results::where`: the query it extracts selects exactly the rows of which the
      lambda's expression is true, for every admissible body. */
  method Where(build: Build, b: Body) returns (full: CoreQuery)
    ensures full.tree == WhereQuery(build, b)
    ensures WellBuilt(b) && Admissible(build, b) ==> forall row: Row :: Sat(row, full.tree) == Truth(row, b)
  {
    var cell := new CoreQuery(All);
    var builder := new Rbool(build, cell);
    var r := Evaluate(builder, b);
    full := CopyQuery(build, r.q);
    if WellBuilt(b) && Admissible(build, b) {
      WhereIsFaithful(build, b);
    }
  }
}
