/** Importing classes with a primary key, linked by `T*` and `std::vector<T*>`. A row is
    found again by its key, so a shared object is written to one row however often it is
    reached; but its lists are appended to each time. */
module KeyedImport {
  import opened GraphStore
  import opened KeyedGraphs
  import opened KeyedGrowth
  import opened KeyedRows
  import opened Options

  /** Finding or creating the row of an object. */
  method Locate(s: Store, g: Memory, keyAt: map<Class, nat>, p: Ptr) returns (k: Key)
    requires s.Valid() && AllKeyed(g, keyAt) && DistinctIds(g, keyAt) && Typed(s.schema, g) && p in g
    modifies s
    ensures s.Valid() && Wrote(old(Snap(s)), Snap(s), {IdOf(g, keyAt, p)}) && Tended(old(Snap(s)), Snap(s), g, keyAt, NO_GROWTH)
    ensures IdOf(g, keyAt, p) in s.index && k == s.index[IdOf(g, keyAt, p)]
    ensures forall j :: j in old(s.rows) ==> j in s.rows && s.rows[j] == old(s.rows)[j]
  {
    ghost var start := Snap(s);
    k := s.CreateObjectWithPrimaryKey(g[p].cls, g[p].fields[keyAt[g[p].cls]].v);
    if IdOf(g, keyAt, p) in start.index {
      NothingWritten(start, g, keyAt, {IdOf(g, keyAt, p)});
    } else {
      NewRow(start, Snap(s), s.schema, g, keyAt, p);
    }
  }

  lemma NewRow(b: Snapshot, a: Snapshot, schema: Schema, g: Memory, keyAt: map<Class, nat>, p: Ptr)
    requires AllKeyed(g, keyAt) && DistinctIds(g, keyAt) && Typed(schema, g) && p in g && IndexMatches(b.rows, b.index)
    requires IdOf(g, keyAt, p) !in b.index && b.next !in b.rows && a.next == b.next + 1
    requires a.rows == b.rows[b.next := BlankRow(schema, g[p].cls, Some(IdOf(g, keyAt, p).1))]
    requires a.index == b.index[IdOf(g, keyAt, p) := b.next]
    ensures Wrote(b, a, {IdOf(g, keyAt, p)}) && Tended(b, a, g, keyAt, NO_GROWTH)
  {
    NewRowWritten(b, a, BlankRow(schema, g[p].cls, Some(IdOf(g, keyAt, p).1)), IdOf(g, keyAt, p));
    NewRowKeepsNulls(b, a, schema, g, keyAt, p);
    NewRowKeepsLists(b, a, schema, g, keyAt, p);
  }

  lemma NothingWritten(t: Snapshot, g: Memory, keyAt: map<Class, nat>, ids: set<Id>)
    requires AllKeyed(g, keyAt) && ids <= t.index.Keys
    ensures Wrote(t, t, ids) && Tended(t, t, g, keyAt, NO_GROWTH)
  {
    assert t.index.Keys + ids == t.index.Keys;
    NothingGrew(t, g, keyAt);
  }

  lemma NothingGrew(t: Snapshot, g: Memory, keyAt: map<Class, nat>)
    requires AllKeyed(g, keyAt)
    ensures Tended(t, t, g, keyAt, NO_GROWTH)
  {
    SameLists(t, t, g, keyAt);
  }

  /** Lists that are as before have not grown. */
  lemma SameLists(b: Snapshot, a: Snapshot, g: Memory, keyAt: map<Class, nat>)
    requires AllKeyed(g, keyAt)
    requires forall q, i {:trigger LinksIn(a, g, keyAt, q, i)} ::
      q in g && 0 <= i < |g[q].fields| && g[q].fields[i].Pointers? ==>
      LinksIn(a, g, keyAt, q, i) == LinksIn(b, g, keyAt, q, i)
    ensures ListsGrew(b, a, g, keyAt, NO_GROWTH)
  {
    assert KeysOf(a.index, []) == [];
    forall q, i | q in g && 0 <= i < |g[q].fields| && g[q].fields[i].Pointers?
      ensures LinksIn(a, g, keyAt, q, i) == LinksIn(b, g, keyAt, q, i) + KeysOf(a.index, NO_GROWTH(q, i))
    {
      assert LinksIn(b, g, keyAt, q, i) + [] == LinksIn(b, g, keyAt, q, i);
    }
  }

  lemma NewRowWritten(b: Snapshot, a: Snapshot, row: Row, id: Id)
    requires id !in b.index && b.next !in b.rows && a == Snapshot(b.rows[b.next := row], b.index[id := b.next], b.next + 1)
    ensures Wrote(b, a, {id})
  {
  }

  lemma NewRowKeepsNulls(b: Snapshot, a: Snapshot, schema: Schema, g: Memory, keyAt: map<Class, nat>, p: Ptr)
    requires AllKeyed(g, keyAt) && DistinctIds(g, keyAt) && Typed(schema, g) && p in g && IndexMatches(b.rows, b.index)
    requires IdOf(g, keyAt, p) !in b.index && b.next !in b.rows && a.next == b.next + 1
    requires a.rows == b.rows[b.next := BlankRow(schema, g[p].cls, Some(IdOf(g, keyAt, p).1))]
    requires a.index == b.index[IdOf(g, keyAt, p) := b.next]
    ensures NullsKept(b, a, g, keyAt)
  {
    forall q, i | q in g && 0 <= i < |g[q].fields| && g[q].fields[i] == Pointer(None)
      ensures NullCell(a, g, keyAt, q, i) == NullCell(b, g, keyAt, q, i)
    {
      if q == p {
        assert FieldTyped(g, g[q].fields[i], schema[g[q].cls][i]);
      }
    }
  }

  lemma NewRowKeepsLists(b: Snapshot, a: Snapshot, schema: Schema, g: Memory, keyAt: map<Class, nat>, p: Ptr)
    requires AllKeyed(g, keyAt) && DistinctIds(g, keyAt) && Typed(schema, g) && p in g && IndexMatches(b.rows, b.index)
    requires IdOf(g, keyAt, p) !in b.index && b.next !in b.rows && a.next == b.next + 1
    requires a.rows == b.rows[b.next := BlankRow(schema, g[p].cls, Some(IdOf(g, keyAt, p).1))]
    requires a.index == b.index[IdOf(g, keyAt, p) := b.next]
    ensures ListsGrew(b, a, g, keyAt, NO_GROWTH)
  {
    forall q, i | q in g && 0 <= i < |g[q].fields| && g[q].fields[i].Pointers?
      ensures LinksIn(a, g, keyAt, q, i) == LinksIn(b, g, keyAt, q, i)
    {
      if q == p {
        assert FieldTyped(g, g[q].fields[i], schema[g[q].cls][i]);
      }
    }
    SameLists(b, a, g, keyAt);
  }

  /** One write to a property that is neither a null pointer nor a list. */
  method WriteField(s: Store, g: Memory, keyAt: map<Class, nat>, p: Ptr, k: Key, i: nat, c: Cell)
    requires s.Valid() && AllKeyed(g, keyAt) && DistinctIds(g, keyAt) && p in g
    requires IdOf(g, keyAt, p) in s.index && k == s.index[IdOf(g, keyAt, p)]
    requires i < |g[p].fields| && g[p].fields[i] != Pointer(None) && !g[p].fields[i].Pointers?
    requires i < |s.rows[k].cells| && CellTyped(s.rows, c, s.schema[g[p].cls][i])
    modifies s
    ensures s.Valid() && Wrote(old(Snap(s)), Snap(s), {IdOf(g, keyAt, p)}) && Tended(old(Snap(s)), Snap(s), g, keyAt, NO_GROWTH)
    ensures s.index == old(s.index) && k in s.rows && s.rows[k] == WithCell(old(s.rows)[k], i, c)
  {
    ghost var start := Snap(s);
    s.Write(k, i, c);
    WriteKeepsNulls(start, Snap(s), g, keyAt, p, i, c);
    WriteKeepsLists(start, Snap(s), g, keyAt, p, i, c);
  }

  lemma WriteKeepsNulls(b: Snapshot, a: Snapshot, g: Memory, keyAt: map<Class, nat>, p: Ptr, i: nat, c: Cell)
    requires AllKeyed(g, keyAt) && DistinctIds(g, keyAt) && p in g && IndexMatches(b.rows, b.index)
    requires IdOf(g, keyAt, p) in b.index && i < |g[p].fields| && g[p].fields[i] != Pointer(None)
    requires i < |b.rows[b.index[IdOf(g, keyAt, p)]].cells|
    requires a == b.(rows := b.rows[b.index[IdOf(g, keyAt, p)] := WithCell(b.rows[b.index[IdOf(g, keyAt, p)]], i, c)])
    ensures NullsKept(b, a, g, keyAt)
  {
    forall q, j | q in g && 0 <= j < |g[q].fields| && g[q].fields[j] == Pointer(None)
      ensures NullCell(a, g, keyAt, q, j) == NullCell(b, g, keyAt, q, j)
    {
      if IdOf(g, keyAt, q) in b.index && b.index[IdOf(g, keyAt, q)] == b.index[IdOf(g, keyAt, p)] {
        assert q == p;
      }
    }
  }

  lemma WriteKeepsLists(b: Snapshot, a: Snapshot, g: Memory, keyAt: map<Class, nat>, p: Ptr, i: nat, c: Cell)
    requires AllKeyed(g, keyAt) && DistinctIds(g, keyAt) && p in g && IndexMatches(b.rows, b.index)
    requires IdOf(g, keyAt, p) in b.index && i < |g[p].fields| && !g[p].fields[i].Pointers?
    requires i < |b.rows[b.index[IdOf(g, keyAt, p)]].cells|
    requires a == b.(rows := b.rows[b.index[IdOf(g, keyAt, p)] := WithCell(b.rows[b.index[IdOf(g, keyAt, p)]], i, c)])
    ensures ListsGrew(b, a, g, keyAt, NO_GROWTH)
  {
    forall q, j | q in g && 0 <= j < |g[q].fields| && g[q].fields[j].Pointers?
      ensures LinksIn(a, g, keyAt, q, j) == LinksIn(b, g, keyAt, q, j)
    {
      if IdOf(g, keyAt, q) in b.index && b.index[IdOf(g, keyAt, q)] == b.index[IdOf(g, keyAt, p)] {
        assert q == p;
      }
    }
    SameLists(b, a, g, keyAt);
  }

  /** `accessor<T*>` up to storing the key of the row it found or created. */
  method StoreLink(s: Store, g: Memory, keyAt: map<Class, nat>, p: Ptr, k: Key, i: nat, q: Ptr) returns (c: Key)
    requires s.Valid() && AllKeyed(g, keyAt) && DistinctIds(g, keyAt) && Typed(s.schema, g) && p in g && q in g
    requires IdOf(g, keyAt, p) in s.index && k == s.index[IdOf(g, keyAt, p)]
    requires i < |g[p].fields| && g[p].fields[i] == Pointer(Some(q))
    modifies s
    ensures s.Valid() && Wrote(old(Snap(s)), Snap(s), {IdOf(g, keyAt, q)} + {IdOf(g, keyAt, p)})
    ensures Tended(old(Snap(s)), Snap(s), g, keyAt, NO_GROWTH)
    ensures IdOf(g, keyAt, q) in s.index && c == s.index[IdOf(g, keyAt, q)]
    ensures k in s.rows && i < |old(s.rows)[k].cells| && s.rows[k] == WithCell(old(s.rows)[k], i, LinkCell(Some(c)))
  {
    ghost var start := Snap(s);
    c := Locate(s, g, keyAt, q);
    ghost var located := Snap(s);
    assert FieldTyped(g, g[p].fields[i], s.schema[g[p].cls][i]);
    assert IdOf(g, keyAt, p) in s.index.Keys;
    assert RowTyped(s.schema, s.rows, s.rows[k]);
    WriteField(s, g, keyAt, p, k, i, LinkCell(Some(c)));
    WroteTwice(start, located, Snap(s), {IdOf(g, keyAt, q)}, {IdOf(g, keyAt, p)});
    TendedTwice(start, located, Snap(s), g, keyAt, NO_GROWTH, NO_GROWTH, {IdOf(g, keyAt, p)});
    TendedAs(start, Snap(s), g, keyAt, Sum(NO_GROWTH, NO_GROWTH), NO_GROWTH);
  }

  predicate HasRow(t: Snapshot, id: Id, k: Key) {
    id in t.index && t.index[id] == k && k in t.rows
  }

  /** The state of `Fill` after `n` properties. */
  ghost predicate Filled(b: Snapshot, a: Snapshot, g: Memory, rank: map<Ptr, nat>, keyAt: map<Class, nat>,
      p: Ptr, k: Key, n: nat)
    requires Graph(g, rank, keyAt) && p in g && n <= |g[p].fields|
  {
    var id, reached := IdOf(g, keyAt, p), ReachVia(g, rank, keyAt, p, n);
    && Wrote(b, a, reached) && Tended(b, a, g, keyAt, GrownVia(g, rank, keyAt, p, n))
    && AllReflect(a, g, keyAt, reached - {id})
    && HasRow(a, id, k) && ShowsFirst(a.index, g, keyAt, p, a.rows[k], n)
  }

  /** Writing property `n` of `p`, and objects below it, takes `Fill` one step further. */
  lemma FilledNext(b: Snapshot, m: Snapshot, a: Snapshot, g: Memory, rank: map<Ptr, nat>, keyAt: map<Class, nat>,
      p: Ptr, k: Key, n: nat, c: Cell, below: set<Id>, grown: Growth)
    requires Graph(g, rank, keyAt) && p in g && n < |g[p].fields| && Filled(b, m, g, rank, keyAt, p, k, n)
    requires IndexMatches(m.rows, m.index)
    requires Wrote(m, a, {IdOf(g, keyAt, p)} + below) && Tended(m, a, g, keyAt, grown) && AllReflect(a, g, keyAt, below)
    requires SameGrowth(g, Sum(GrownVia(g, rank, keyAt, p, n), grown), GrownVia(g, rank, keyAt, p, n + 1))
    requires ReachVia(g, rank, keyAt, p, n + 1) == ReachVia(g, rank, keyAt, p, n) + below
    requires k in a.rows && a.rows[k] == WithCell(m.rows[k], n, c) && Shows(a.index, g, keyAt, g[p].fields[n], c)
    ensures Filled(b, a, g, rank, keyAt, p, k, n + 1)
  {
    var id, reached := IdOf(g, keyAt, p), ReachVia(g, rank, keyAt, p, n);
    ReachHasRoot(g, rank, keyAt, p, n);
    WroteMore(b, m, a, reached, id, below);
    TendedTwice(b, m, a, g, keyAt, GrownVia(g, rank, keyAt, p, n), grown, {id} + below);
    TendedAs(b, a, g, keyAt, Sum(GrownVia(g, rank, keyAt, p, n), grown), GrownVia(g, rank, keyAt, p, n + 1));
    OthersReflect(m, a, g, keyAt, reached, id, below);
    RowShowsNext(m, a, g, keyAt, p, k, n, c, {id} + below);
  }

  lemma WroteMore(b: Snapshot, m: Snapshot, a: Snapshot, reached: set<Id>, id: Id, below: set<Id>)
    requires Wrote(b, m, reached) && Wrote(m, a, {id} + below) && id in reached
    ensures Wrote(b, a, reached + below)
  {
    WroteTwice(b, m, a, reached, {id} + below);
    IdAbsorbed(reached, id, below);
  }

  lemma OthersReflect(m: Snapshot, a: Snapshot, g: Memory, keyAt: map<Class, nat>, reached: set<Id>, id: Id,
      below: set<Id>)
    requires AllKeyed(g, keyAt) && Wrote(m, a, {id} + below) && IndexMatches(m.rows, m.index)
    requires AllReflect(m, g, keyAt, reached - {id}) && AllReflect(a, g, keyAt, below)
    ensures AllReflect(a, g, keyAt, (reached + below) - {id})
  {
    AllStillReflect(m, a, g, keyAt, reached - {id}, {id} + below, below);
  }

  lemma RowShowsNext(m: Snapshot, a: Snapshot, g: Memory, keyAt: map<Class, nat>, p: Ptr, k: Key, n: nat,
      c: Cell, ids: set<Id>)
    requires AllKeyed(g, keyAt) && p in g && n < |g[p].fields| && IndexGrew(m, a, ids)
    requires HasRow(m, IdOf(g, keyAt, p), k) && k in a.rows && ShowsFirst(m.index, g, keyAt, p, m.rows[k], n)
    requires a.rows[k] == WithCell(m.rows[k], n, c) && Shows(a.index, g, keyAt, g[p].fields[n], c)
    ensures HasRow(a, IdOf(g, keyAt, p), k) && ShowsFirst(a.index, g, keyAt, p, a.rows[k], n + 1)
  {
    assert IdOf(g, keyAt, p) in a.index.Keys;
    ShowsStays(m, a, g, keyAt, ids, p, m.rows[k], n);
  }

  /** Filling what `q` reaches leaves the row of an object above it alone. */
  lemma ParentUntouched(b: Snapshot, a: Snapshot, g: Memory, rank: map<Ptr, nat>, keyAt: map<Class, nat>, p: Ptr, q: Ptr)
    requires Graph(g, rank, keyAt) && DistinctIds(g, keyAt) && p in g && q in g && rank[q] < rank[p]
    requires Wrote(b, a, Reach(g, rank, keyAt, q)) && IndexMatches(b.rows, b.index) && IdOf(g, keyAt, p) in b.index
    ensures var k := b.index[IdOf(g, keyAt, p)]; k in a.rows && a.rows[k] == b.rows[k]
  {
    if IdOf(g, keyAt, p) in Reach(g, rank, keyAt, q) {
      ReachDescends(g, rank, keyAt, q, |g[q].fields|, p);
    }
  }

  /** `accessor<T*>` for a keyed class: store the key, then fill the row. */
  method SetLink(s: Store, g: Memory, ghost rank: map<Ptr, nat>, keyAt: map<Class, nat>, p: Ptr, k: Key, i: nat, q: Ptr)
    requires s.Valid() && Graph(g, rank, keyAt) && DistinctIds(g, keyAt) && NoPrimitiveLists(g) && Typed(s.schema, g)
    requires p in g && q in g && rank[q] < rank[p]
    requires IdOf(g, keyAt, p) in s.index && k == s.index[IdOf(g, keyAt, p)]
    requires i < |g[p].fields| && g[p].fields[i] == Pointer(Some(q))
    modifies s
    ensures s.Valid() && Wrote(old(Snap(s)), Snap(s), {IdOf(g, keyAt, p)} + Reach(g, rank, keyAt, q))
    ensures Tended(old(Snap(s)), Snap(s), g, keyAt, Grown(g, rank, keyAt, q))
    ensures AllReflect(Snap(s), g, keyAt, Reach(g, rank, keyAt, q))
    ensures IdOf(g, keyAt, q) in s.index && k in s.rows && i < |old(s.rows)[k].cells|
    ensures s.rows[k] == WithCell(old(s.rows)[k], i, LinkCell(Some(s.index[IdOf(g, keyAt, q)])))
    decreases rank[p], 0
  {
    ghost var start := Snap(s);
    var c := StoreLink(s, g, keyAt, p, k, i, q);
    ghost var linked := Snap(s);
    Fill(s, g, rank, keyAt, q, c);
    LinkedAndFilled(start, linked, Snap(s), g, rank, keyAt, p, q);
  }

  lemma LinkedAndFilled(b: Snapshot, m: Snapshot, a: Snapshot, g: Memory, rank: map<Ptr, nat>,
      keyAt: map<Class, nat>, p: Ptr, q: Ptr)
    requires Graph(g, rank, keyAt) && DistinctIds(g, keyAt) && p in g && q in g && rank[q] < rank[p]
    requires IdOf(g, keyAt, p) in b.index && IndexMatches(m.rows, m.index)
    requires Wrote(b, m, {IdOf(g, keyAt, q)} + {IdOf(g, keyAt, p)}) && Wrote(m, a, Reach(g, rank, keyAt, q))
    requires Tended(b, m, g, keyAt, NO_GROWTH) && Tended(m, a, g, keyAt, Grown(g, rank, keyAt, q))
    requires IdOf(g, keyAt, q) in m.index
    ensures Wrote(b, a, {IdOf(g, keyAt, p)} + Reach(g, rank, keyAt, q)) && Tended(b, a, g, keyAt, Grown(g, rank, keyAt, q))
    ensures var k := b.index[IdOf(g, keyAt, p)]; k in m.rows && k in a.rows && a.rows[k] == m.rows[k]
    ensures IdOf(g, keyAt, q) in a.index && a.index[IdOf(g, keyAt, q)] == m.index[IdOf(g, keyAt, q)]
  {
    var reached := Reach(g, rank, keyAt, q);
    ReachHasRoot(g, rank, keyAt, q, |g[q].fields|);
    assert IdOf(g, keyAt, p) in m.index.Keys && IdOf(g, keyAt, q) in a.index.Keys;
    ParentUntouched(m, a, g, rank, keyAt, p, q);
    WroteTwice(b, m, a, {IdOf(g, keyAt, q)} + {IdOf(g, keyAt, p)}, reached);
    TargetAbsorbed(reached, IdOf(g, keyAt, q), IdOf(g, keyAt, p));
    TendedAfterNothing(b, m, a, g, keyAt, Grown(g, rank, keyAt, q), reached);
  }

  lemma TendedAfterNothing(b: Snapshot, m: Snapshot, a: Snapshot, g: Memory, keyAt: map<Class, nat>, d: Growth, ids: set<Id>)
    requires AllKeyed(g, keyAt) && Tended(b, m, g, keyAt, NO_GROWTH) && Tended(m, a, g, keyAt, d) && IndexGrew(m, a, ids)
    ensures Tended(b, a, g, keyAt, d)
  {
    TendedTwice(b, m, a, g, keyAt, NO_GROWTH, d, ids);
    forall q, i: nat | q in g && i < |g[q].fields| ensures Sum(NO_GROWTH, d)(q, i) == d(q, i) {
      assert [] + d(q, i) == d(q, i);
    }
    TendedAs(b, a, g, keyAt, Sum(NO_GROWTH, d), d);
  }

  /** Writes every property of a keyed object into its row. */
  method Fill(s: Store, g: Memory, ghost rank: map<Ptr, nat>, keyAt: map<Class, nat>, p: Ptr, k: Key)
    requires s.Valid() && Graph(g, rank, keyAt) && DistinctIds(g, keyAt) && NoPrimitiveLists(g) && Typed(s.schema, g)
    requires p in g && IdOf(g, keyAt, p) in s.index && k == s.index[IdOf(g, keyAt, p)]
    modifies s
    ensures s.Valid() && Wrote(old(Snap(s)), Snap(s), Reach(g, rank, keyAt, p))
    ensures Tended(old(Snap(s)), Snap(s), g, keyAt, Grown(g, rank, keyAt, p))
    ensures AllReflect(Snap(s), g, keyAt, Reach(g, rank, keyAt, p))
    decreases rank[p], 4
  {
    ghost var start := Snap(s);
    NothingFilled(start, s.schema, g, rank, keyAt, p);
    FillFields(s, start, g, rank, keyAt, p, k);
    AllFilled(start, Snap(s), g, rank, keyAt, p, k);
  }

  method FillFields(s: Store, ghost b: Snapshot, g: Memory, ghost rank: map<Ptr, nat>, keyAt: map<Class, nat>,
      p: Ptr, k: Key)
    requires s.Valid() && Graph(g, rank, keyAt) && DistinctIds(g, keyAt) && NoPrimitiveLists(g) && Typed(s.schema, g)
    requires p in g && Filled(b, Snap(s), g, rank, keyAt, p, k, 0)
    modifies s
    ensures s.Valid() && Filled(b, Snap(s), g, rank, keyAt, p, k, |g[p].fields|)
    decreases rank[p], 3
  {
    for i := 0 to |g[p].fields|
      invariant s.Valid() && Filled(b, Snap(s), g, rank, keyAt, p, k, i)
    {
      FillField(s, b, g, rank, keyAt, p, k, i);
    }
  }

  lemma NothingFilled(t: Snapshot, schema: Schema, g: Memory, rank: map<Ptr, nat>, keyAt: map<Class, nat>, p: Ptr)
    requires Graph(g, rank, keyAt) && Typed(schema, g) && p in g && IdOf(g, keyAt, p) in t.index
    requires IndexMatches(t.rows, t.index) && forall k :: k in t.rows ==> RowTyped(schema, t.rows, t.rows[k])
    ensures Filled(t, t, g, rank, keyAt, p, t.index[IdOf(g, keyAt, p)], 0)
  {
    assert t.index.Keys == t.index.Keys + {IdOf(g, keyAt, p)};
    assert RowTyped(schema, t.rows, t.rows[t.index[IdOf(g, keyAt, p)]]);
    NothingGrew(t, g, keyAt);
    NothingGrown(g, rank, keyAt, p);
    TendedAs(t, t, g, keyAt, NO_GROWTH, GrownVia(g, rank, keyAt, p, 0));
  }

  lemma AllFilled(b: Snapshot, a: Snapshot, g: Memory, rank: map<Ptr, nat>, keyAt: map<Class, nat>, p: Ptr, k: Key)
    requires Graph(g, rank, keyAt) && DistinctIds(g, keyAt) && p in g && Filled(b, a, g, rank, keyAt, p, k, |g[p].fields|)
    ensures Wrote(b, a, Reach(g, rank, keyAt, p)) && Tended(b, a, g, keyAt, Grown(g, rank, keyAt, p))
    ensures AllReflect(a, g, keyAt, Reach(g, rank, keyAt, p))
  {
    assert Reflects(a, g, keyAt, p);
    AllGrown(g, rank, keyAt, p);
    TendedAs(b, a, g, keyAt, GrownVia(g, rank, keyAt, p, |g[p].fields|), Grown(g, rank, keyAt, p));
  }

  /** The accessor of one property. */
  method FillField(s: Store, ghost b: Snapshot, g: Memory, ghost rank: map<Ptr, nat>, keyAt: map<Class, nat>,
      p: Ptr, k: Key, i: nat)
    requires s.Valid() && Graph(g, rank, keyAt) && DistinctIds(g, keyAt) && NoPrimitiveLists(g) && Typed(s.schema, g)
    requires p in g && i < |g[p].fields| && Filled(b, Snap(s), g, rank, keyAt, p, k, i)
    modifies s
    ensures s.Valid() && Filled(b, Snap(s), g, rank, keyAt, p, k, i + 1)
    decreases rank[p], 2
  {
    match g[p].fields[i]
    case Scalar(v) => FillScalar(s, b, g, rank, keyAt, p, k, i, v);
    case Pointer(None) => FilledSkip(b, Snap(s), g, rank, keyAt, p, k, i);
    case Pointer(Some(q)) => FillPointer(s, b, g, rank, keyAt, p, k, i, q);
    case Pointers(ps) => FillList(s, b, g, rank, keyAt, p, k, i, ps);
  }

  /** The accessor leaves the property of a null pointer alone. */
  lemma FilledSkip(b: Snapshot, a: Snapshot, g: Memory, rank: map<Ptr, nat>, keyAt: map<Class, nat>, p: Ptr,
      k: Key, n: nat)
    requires Graph(g, rank, keyAt) && p in g && n < |g[p].fields| && g[p].fields[n] == Pointer(None)
    requires Filled(b, a, g, rank, keyAt, p, k, n)
    ensures Filled(b, a, g, rank, keyAt, p, k, n + 1)
  {
    ReachSkips(g, rank, keyAt, p, n);
    TendedSkips(b, a, g, rank, keyAt, p, n);
    NullShown(a.index, g, keyAt, p, a.rows[k], n);
  }

  lemma TendedSkips(b: Snapshot, a: Snapshot, g: Memory, rank: map<Ptr, nat>, keyAt: map<Class, nat>, p: Ptr, n: nat)
    requires Graph(g, rank, keyAt) && p in g && n < |g[p].fields| && g[p].fields[n] == Pointer(None)
    requires Tended(b, a, g, keyAt, GrownVia(g, rank, keyAt, p, n))
    ensures Tended(b, a, g, keyAt, GrownVia(g, rank, keyAt, p, n + 1))
  {
    GrowthSkips(g, rank, keyAt, p, n);
    SumWithNothing(g, GrownVia(g, rank, keyAt, p, n), GrownVia(g, rank, keyAt, p, n + 1));
    TendedAs(b, a, g, keyAt, GrownVia(g, rank, keyAt, p, n), GrownVia(g, rank, keyAt, p, n + 1));
  }

  lemma NullShown(index: map<Id, Key>, g: Memory, keyAt: map<Class, nat>, p: Ptr, row: Row, n: nat)
    requires AllKeyed(g, keyAt) && p in g && n < |g[p].fields| && g[p].fields[n] == Pointer(None)
    requires ShowsFirst(index, g, keyAt, p, row, n)
    ensures ShowsFirst(index, g, keyAt, p, row, n + 1)
  {
  }

  lemma SumWithNothing(g: Memory, d: Growth, e: Growth)
    requires SameGrowth(g, Sum(d, NO_GROWTH), e)
    ensures SameGrowth(g, d, e)
  {
    forall q, i: nat | q in g && i < |g[q].fields| ensures d(q, i) == e(q, i) {
      assert Sum(d, NO_GROWTH)(q, i) == d(q, i) + [] == d(q, i);
    }
  }

  /** The accessor of a scalar property. */
  method FillScalar(s: Store, ghost b: Snapshot, g: Memory, ghost rank: map<Ptr, nat>, keyAt: map<Class, nat>,
      p: Ptr, k: Key, i: nat, v: int)
    requires s.Valid() && Graph(g, rank, keyAt) && DistinctIds(g, keyAt) && Typed(s.schema, g)
    requires p in g && i < |g[p].fields| && g[p].fields[i] == Scalar(v)
    requires Filled(b, Snap(s), g, rank, keyAt, p, k, i)
    modifies s
    ensures s.Valid() && Filled(b, Snap(s), g, rank, keyAt, p, k, i + 1)
  {
    ghost var before := Snap(s);
    StoreScalar(s, g, keyAt, p, k, i, v);
    FilledNextScalar(b, before, Snap(s), g, rank, keyAt, p, k, i, v);
  }

  lemma FilledNextScalar(b: Snapshot, m: Snapshot, a: Snapshot, g: Memory, rank: map<Ptr, nat>, keyAt: map<Class, nat>,
      p: Ptr, k: Key, n: nat, v: int)
    requires Graph(g, rank, keyAt) && p in g && n < |g[p].fields| && g[p].fields[n] == Scalar(v)
    requires Filled(b, m, g, rank, keyAt, p, k, n) && IndexMatches(m.rows, m.index)
    requires Wrote(m, a, {IdOf(g, keyAt, p)} + {}) && Tended(m, a, g, keyAt, NO_GROWTH)
    requires k in a.rows && n < |m.rows[k].cells| && a.rows[k] == WithCell(m.rows[k], n, ScalarCell(v))
    ensures Filled(b, a, g, rank, keyAt, p, k, n + 1)
  {
    ReachSkips(g, rank, keyAt, p, n);
    GrowthSkips(g, rank, keyAt, p, n);
    FilledNext(b, m, a, g, rank, keyAt, p, k, n, ScalarCell(v), {}, NO_GROWTH);
  }

  method StoreScalar(s: Store, g: Memory, keyAt: map<Class, nat>, p: Ptr, k: Key, i: nat, v: int)
    requires s.Valid() && AllKeyed(g, keyAt) && DistinctIds(g, keyAt) && Typed(s.schema, g) && p in g
    requires HasRow(Snap(s), IdOf(g, keyAt, p), k) && i < |g[p].fields| && g[p].fields[i] == Scalar(v)
    modifies s
    ensures s.Valid() && Wrote(old(Snap(s)), Snap(s), {IdOf(g, keyAt, p)} + {})
    ensures Tended(old(Snap(s)), Snap(s), g, keyAt, NO_GROWTH)
    ensures k in s.rows && i < |old(s.rows)[k].cells| && s.rows[k] == WithCell(old(s.rows)[k], i, ScalarCell(v))
  {
    assert FieldTyped(g, g[p].fields[i], s.schema[g[p].cls][i]);
    WriteField(s, g, keyAt, p, k, i, ScalarCell(v));
    assert {IdOf(g, keyAt, p)} + {} == {IdOf(g, keyAt, p)};
  }

  /** The accessor of a `T*` property that is not null. */
  method FillPointer(s: Store, ghost b: Snapshot, g: Memory, ghost rank: map<Ptr, nat>, keyAt: map<Class, nat>,
      p: Ptr, k: Key, i: nat, q: Ptr)
    requires s.Valid() && Graph(g, rank, keyAt) && DistinctIds(g, keyAt) && NoPrimitiveLists(g) && Typed(s.schema, g)
    requires p in g && i < |g[p].fields| && g[p].fields[i] == Pointer(Some(q))
    requires Filled(b, Snap(s), g, rank, keyAt, p, k, i)
    modifies s
    ensures s.Valid() && Filled(b, Snap(s), g, rank, keyAt, p, k, i + 1)
    decreases rank[p], 1
  {
    ghost var before := Snap(s);
    ReachFollows(g, rank, keyAt, p, i, q);
    GrowthFollows(g, rank, keyAt, p, i, q);
    SetLink(s, g, rank, keyAt, p, k, i, q);
    FilledNext(b, before, Snap(s), g, rank, keyAt, p, k, i, LinkCell(Some(s.index[IdOf(g, keyAt, q)])),
      Reach(g, rank, keyAt, q), Grown(g, rank, keyAt, q));
  }

  // ----- lists -----

  /** The state of the list accessor after the entries `ps`, seen from its start `m`. */
  ghost predicate Listed(m: Snapshot, a: Snapshot, g: Memory, rank: map<Ptr, nat>, keyAt: map<Class, nat>,
      p: Ptr, k: Key, n: nat, ps: seq<Option<Ptr>>)
    requires Graph(g, rank, keyAt) && p in g && FieldBelow(g, rank, Pointers(ps), rank[p])
  {
    var reached := ReachList(g, rank, keyAt, ps, rank[p]);
    && Wrote(m, a, {IdOf(g, keyAt, p)} + reached) && AllReflect(a, g, keyAt, reached)
    && Tended(m, a, g, keyAt, GrownList(g, rank, keyAt, p, n, ps))
    && HasRow(a, IdOf(g, keyAt, p), k) && ListRow(m, a, k, n, EntryIds(g, keyAt, ps))
  }

  /** Row `k` has changed in list `n` only, by some ids at its end. */
  ghost predicate ListRow(m: Snapshot, a: Snapshot, k: Key, n: nat, ids: seq<Id>) {
    && k in m.rows && k in a.rows && n < |m.rows[k].cells| && m.rows[k].cells[n].LinksCell? && Indexed(a.index, ids)
    && a.rows[k] == WithCell(m.rows[k], n, LinksCell(m.rows[k].cells[n].links + KeysOf(a.index, ids)))
  }

  /** `accessor<std::vector<T*>>` for a keyed class. */
  method FillList(s: Store, ghost b: Snapshot, g: Memory, ghost rank: map<Ptr, nat>, keyAt: map<Class, nat>,
      p: Ptr, k: Key, i: nat, ps: seq<Option<Ptr>>)
    requires s.Valid() && Graph(g, rank, keyAt) && DistinctIds(g, keyAt) && NoPrimitiveLists(g) && Typed(s.schema, g)
    requires p in g && i < |g[p].fields| && g[p].fields[i] == Pointers(ps)
    requires Filled(b, Snap(s), g, rank, keyAt, p, k, i)
    modifies s
    ensures s.Valid() && Filled(b, Snap(s), g, rank, keyAt, p, k, i + 1)
    decreases rank[p], 1, 3
  {
    ghost var before := Snap(s);
    ReachFollowsList(g, rank, keyAt, p, i, ps);
    NothingListed(before, s.schema, g, rank, keyAt, p, k, i);
    FillEntries(s, before, g, rank, keyAt, p, k, i, ps);
    AllListed(b, before, Snap(s), g, rank, keyAt, p, k, i, ps);
  }

  /** The loop over the entries. */
  method FillEntries(s: Store, ghost m: Snapshot, g: Memory, ghost rank: map<Ptr, nat>, keyAt: map<Class, nat>,
      p: Ptr, k: Key, i: nat, ps: seq<Option<Ptr>>)
    requires s.Valid() && Graph(g, rank, keyAt) && DistinctIds(g, keyAt) && NoPrimitiveLists(g) && Typed(s.schema, g)
    requires p in g && i < |g[p].fields| && g[p].fields[i] == Pointers(ps) && FieldBelow(g, rank, Pointers(ps), rank[p])
    requires Listed(m, Snap(s), g, rank, keyAt, p, k, i, [])
    modifies s
    ensures s.Valid() && Listed(m, Snap(s), g, rank, keyAt, p, k, i, ps)
    decreases rank[p], 1, 2
  {
    ghost var done: seq<Option<Ptr>> := [];
    for j := 0 to |ps|
      invariant s.Valid() && done == ps[..j] && FieldBelow(g, rank, Pointers(done), rank[p])
      invariant Listed(m, Snap(s), g, rank, keyAt, p, k, i, done)
    {
      EntryBelow(g, rank, ps, j, rank[p]);
      FillEntry(s, m, g, rank, keyAt, p, k, i, done, ps[j]);
      done := done + [ps[j]];
    }
    assert done == ps;
  }

  lemma EntryBelow(g: Memory, rank: map<Ptr, nat>, ps: seq<Option<Ptr>>, j: nat, bound: nat)
    requires FieldBelow(g, rank, Pointers(ps), bound) && j < |ps|
    ensures FieldBelow(g, rank, Pointer(ps[j]), bound) && FieldBelow(g, rank, Pointers(ps[..j] + [ps[j]]), bound)
    ensures ps[..j] + [ps[j]] == ps[..j + 1] && ps[j] in ps
  {
  }

  lemma NothingListed(m: Snapshot, schema: Schema, g: Memory, rank: map<Ptr, nat>, keyAt: map<Class, nat>,
      p: Ptr, k: Key, n: nat)
    requires Graph(g, rank, keyAt) && Typed(schema, g) && p in g && n < |g[p].fields| && g[p].fields[n].Pointers?
    requires HasRow(m, IdOf(g, keyAt, p), k)
    requires IndexMatches(m.rows, m.index) && forall k :: k in m.rows ==> RowTyped(schema, m.rows, m.rows[k])
    ensures Listed(m, m, g, rank, keyAt, p, k, n, [])
  {
    assert m.index.Keys == m.index.Keys + ({IdOf(g, keyAt, p)} + {});
    assert RowTyped(schema, m.rows, m.rows[k]) && FieldTyped(g, g[p].fields[n], schema[g[p].cls][n]);
    assert CellTyped(m.rows, m.rows[k].cells[n], schema[g[p].cls][n]);
    var links := m.rows[k].cells[n].links;
    assert links + KeysOf(m.index, []) == links;
    NothingGrew(m, g, keyAt);
    NoEntries(g, rank, keyAt, p, n);
    TendedAs(m, m, g, keyAt, NO_GROWTH, GrownList(g, rank, keyAt, p, n, []));
  }

  /** One turn of the loop, after the entries `done`. */
  method FillEntry(s: Store, ghost m: Snapshot, g: Memory, ghost rank: map<Ptr, nat>, keyAt: map<Class, nat>,
      p: Ptr, k: Key, i: nat, ghost done: seq<Option<Ptr>>, entry: Option<Ptr>)
    requires s.Valid() && Graph(g, rank, keyAt) && DistinctIds(g, keyAt) && NoPrimitiveLists(g) && Typed(s.schema, g)
    requires p in g && i < |g[p].fields| && g[p].fields[i].Pointers? && entry in g[p].fields[i].ps
    requires FieldBelow(g, rank, Pointers(done), rank[p]) && FieldBelow(g, rank, Pointers(done + [entry]), rank[p])
    requires FieldBelow(g, rank, Pointer(entry), rank[p]) && Listed(m, Snap(s), g, rank, keyAt, p, k, i, done)
    modifies s
    ensures s.Valid() && Listed(m, Snap(s), g, rank, keyAt, p, k, i, done + [entry])
    decreases rank[p], 1, 1
  {
    match entry
    case None => ListedSkip(m, Snap(s), g, rank, keyAt, p, k, i, done);
    case Some(x) =>
      ghost var before := Snap(s);
      AddEntry(s, g, rank, keyAt, p, k, i, x);
      ListedNext(m, before, Snap(s), g, rank, keyAt, p, k, i, done, x);
  }

  lemma ListedSkip(m: Snapshot, a: Snapshot, g: Memory, rank: map<Ptr, nat>, keyAt: map<Class, nat>,
      p: Ptr, k: Key, n: nat, ps: seq<Option<Ptr>>)
    requires Graph(g, rank, keyAt) && p in g && FieldBelow(g, rank, Pointers(ps), rank[p])
    requires FieldBelow(g, rank, Pointers(ps + [None]), rank[p]) && Listed(m, a, g, rank, keyAt, p, k, n, ps)
    ensures Listed(m, a, g, rank, keyAt, p, k, n, ps + [None])
  {
    ReachListNext(g, rank, keyAt, ps, None, rank[p]);
    EntriesNext(g, rank, keyAt, ps, None, rank[p], p);
    NoMore(EntryIds(g, keyAt, ps));
    TendedSkipsEntry(m, a, g, rank, keyAt, p, n, ps);
  }

  lemma NoMore(s: seq<Id>)
    ensures s + [] == s
  {
  }

  lemma TendedSkipsEntry(m: Snapshot, a: Snapshot, g: Memory, rank: map<Ptr, nat>, keyAt: map<Class, nat>,
      p: Ptr, n: nat, ps: seq<Option<Ptr>>)
    requires Graph(g, rank, keyAt) && p in g && FieldBelow(g, rank, Pointers(ps), rank[p])
    requires FieldBelow(g, rank, Pointers(ps + [None]), rank[p])
    requires Tended(m, a, g, keyAt, GrownList(g, rank, keyAt, p, n, ps))
    ensures Tended(m, a, g, keyAt, GrownList(g, rank, keyAt, p, n, ps + [None]))
  {
    GrowthSkipsEntry(g, rank, keyAt, p, n, ps);
    TendedAs(m, a, g, keyAt, GrownList(g, rank, keyAt, p, n, ps), GrownList(g, rank, keyAt, p, n, ps + [None]));
  }

  lemma ListedNext(m: Snapshot, b: Snapshot, a: Snapshot, g: Memory, rank: map<Ptr, nat>, keyAt: map<Class, nat>,
      p: Ptr, k: Key, n: nat, ps: seq<Option<Ptr>>, x: Ptr)
    requires Graph(g, rank, keyAt) && p in g && FieldBelow(g, rank, Pointers(ps), rank[p]) && x in g && rank[x] < rank[p]
    requires FieldBelow(g, rank, Pointers(ps + [Some(x)]), rank[p])
    requires DistinctIds(g, keyAt) && Listed(m, b, g, rank, keyAt, p, k, n, ps) && IndexMatches(b.rows, b.index)
    requires Wrote(b, a, {IdOf(g, keyAt, p)} + Reach(g, rank, keyAt, x)) && AllReflect(a, g, keyAt, Reach(g, rank, keyAt, x))
    requires Tended(b, a, g, keyAt, Sum(Grown(g, rank, keyAt, x), OneEntry(p, n, IdOf(g, keyAt, x))))
    requires ListRow(b, a, k, n, [IdOf(g, keyAt, x)])
    ensures Listed(m, a, g, rank, keyAt, p, k, n, ps + [Some(x)])
  {
    ReachListNext(g, rank, keyAt, ps, Some(x), rank[p]);
    EntriesNext(g, rank, keyAt, ps, Some(x), rank[p], p);
    TendedNext(m, b, a, g, rank, keyAt, p, n, ps, x);
    EntryReflects(m, b, a, g, rank, keyAt, ps, rank[p], p, Reach(g, rank, keyAt, x));
    EntryInRow(m, b, a, g, rank, keyAt, p, k, n, ps, x);
  }

  lemma EntryReflects(m: Snapshot, b: Snapshot, a: Snapshot, g: Memory, rank: map<Ptr, nat>, keyAt: map<Class, nat>,
      ps: seq<Option<Ptr>>, bound: nat, p: Ptr, more: set<Id>)
    requires Graph(g, rank, keyAt) && DistinctIds(g, keyAt) && FieldBelow(g, rank, Pointers(ps), bound)
    requires p in g && bound <= rank[p] && IndexMatches(b.rows, b.index)
    requires Wrote(m, b, {IdOf(g, keyAt, p)} + ReachList(g, rank, keyAt, ps, bound)) && Wrote(b, a, {IdOf(g, keyAt, p)} + more)
    requires AllReflect(b, g, keyAt, ReachList(g, rank, keyAt, ps, bound)) && AllReflect(a, g, keyAt, more)
    ensures Wrote(m, a, {IdOf(g, keyAt, p)} + (ReachList(g, rank, keyAt, ps, bound) + more))
    ensures AllReflect(a, g, keyAt, ReachList(g, rank, keyAt, ps, bound) + more)
  {
    WroteEntry(m, b, a, IdOf(g, keyAt, p), ReachList(g, rank, keyAt, ps, bound), more);
    ListReflects(b, a, g, rank, keyAt, ps, bound, p, more);
  }

  lemma EntryInRow(m: Snapshot, b: Snapshot, a: Snapshot, g: Memory, rank: map<Ptr, nat>, keyAt: map<Class, nat>,
      p: Ptr, k: Key, n: nat, ps: seq<Option<Ptr>>, x: Ptr)
    requires Graph(g, rank, keyAt) && p in g && FieldBelow(g, rank, Pointers(ps), rank[p]) && x in g
    requires Listed(m, b, g, rank, keyAt, p, k, n, ps)
    requires Wrote(b, a, {IdOf(g, keyAt, p)} + Reach(g, rank, keyAt, x)) && ListRow(b, a, k, n, [IdOf(g, keyAt, x)])
    ensures HasRow(a, IdOf(g, keyAt, p), k) && ListRow(m, a, k, n, EntryIds(g, keyAt, ps) + [IdOf(g, keyAt, x)])
  {
    assert IdOf(g, keyAt, p) in a.index.Keys;
    ListRowTwice(m, b, a, k, n, EntryIds(g, keyAt, ps), [IdOf(g, keyAt, x)], {IdOf(g, keyAt, p)} + Reach(g, rank, keyAt, x));
  }

  lemma TendedNext(m: Snapshot, b: Snapshot, a: Snapshot, g: Memory, rank: map<Ptr, nat>, keyAt: map<Class, nat>,
      p: Ptr, n: nat, ps: seq<Option<Ptr>>, x: Ptr)
    requires Graph(g, rank, keyAt) && p in g && FieldBelow(g, rank, Pointers(ps), rank[p]) && x in g && rank[x] < rank[p]
    requires FieldBelow(g, rank, Pointers(ps + [Some(x)]), rank[p])
    requires Tended(m, b, g, keyAt, GrownList(g, rank, keyAt, p, n, ps))
    requires Wrote(b, a, {IdOf(g, keyAt, p)} + Reach(g, rank, keyAt, x))
    requires Tended(b, a, g, keyAt, Sum(Grown(g, rank, keyAt, x), OneEntry(p, n, IdOf(g, keyAt, x))))
    ensures Tended(m, a, g, keyAt, GrownList(g, rank, keyAt, p, n, ps + [Some(x)]))
  {
    var d, e := GrownList(g, rank, keyAt, p, n, ps), Sum(Grown(g, rank, keyAt, x), OneEntry(p, n, IdOf(g, keyAt, x)));
    TendedTwice(m, b, a, g, keyAt, d, e, {IdOf(g, keyAt, p)} + Reach(g, rank, keyAt, x));
    GrowthNext(g, rank, keyAt, p, n, ps, x);
    TendedAs(m, a, g, keyAt, Sum(d, e), GrownList(g, rank, keyAt, p, n, ps + [Some(x)]));
  }

  lemma WroteEntry(m: Snapshot, b: Snapshot, a: Snapshot, id: Id, before: set<Id>, more: set<Id>)
    requires Wrote(m, b, {id} + before) && Wrote(b, a, {id} + more)
    ensures Wrote(m, a, {id} + (before + more))
  {
    WroteMore(m, b, a, {id} + before, id, more);
    UnionsRegroup(id, before, more);
  }

  lemma UnionsRegroup(id: Id, before: set<Id>, more: set<Id>)
    ensures {id} + before + more == {id} + (before + more)
  {
  }

  lemma ListReflects(b: Snapshot, a: Snapshot, g: Memory, rank: map<Ptr, nat>, keyAt: map<Class, nat>,
      ps: seq<Option<Ptr>>, bound: nat, p: Ptr, more: set<Id>)
    requires Graph(g, rank, keyAt) && DistinctIds(g, keyAt) && FieldBelow(g, rank, Pointers(ps), bound)
    requires p in g && bound <= rank[p] && IndexMatches(b.rows, b.index) && Wrote(b, a, {IdOf(g, keyAt, p)} + more)
    requires AllReflect(b, g, keyAt, ReachList(g, rank, keyAt, ps, bound)) && AllReflect(a, g, keyAt, more)
    ensures AllReflect(a, g, keyAt, ReachList(g, rank, keyAt, ps, bound) + more)
  {
    var before := ReachList(g, rank, keyAt, ps, bound);
    if IdOf(g, keyAt, p) in before {
      ReachListDescends(g, rank, keyAt, ps, bound, p);
    }
    AllStillReflect(b, a, g, keyAt, before, {IdOf(g, keyAt, p)} + more, more);
  }

  lemma ListRowTwice(m: Snapshot, b: Snapshot, a: Snapshot, k: Key, n: nat, s: seq<Id>, t: seq<Id>, ids: set<Id>)
    requires ListRow(m, b, k, n, s) && ListRow(b, a, k, n, t) && IndexGrew(b, a, ids)
    ensures ListRow(m, a, k, n, s + t)
  {
    AppendedTwice(b, a, ids, m.rows[k].cells[n].links, b.rows[k].cells[n].links, a.rows[k].cells[n].links, s, t);
  }

  lemma AllListed(b: Snapshot, m: Snapshot, a: Snapshot, g: Memory, rank: map<Ptr, nat>, keyAt: map<Class, nat>,
      p: Ptr, k: Key, n: nat, ps: seq<Option<Ptr>>)
    requires Graph(g, rank, keyAt) && DistinctIds(g, keyAt) && p in g && n < |g[p].fields| && g[p].fields[n] == Pointers(ps)
    requires FieldBelow(g, rank, Pointers(ps), rank[p])
    requires Filled(b, m, g, rank, keyAt, p, k, n) && IndexMatches(m.rows, m.index)
    requires Listed(m, a, g, rank, keyAt, p, k, n, ps)
    ensures Filled(b, a, g, rank, keyAt, p, k, n + 1)
  {
    ReachFollowsList(g, rank, keyAt, p, n, ps);
    GrowthFollowsList(g, rank, keyAt, p, n, ps);
    ListShown(a.index, g, keyAt, ps, a.rows[k].cells[n]);
    FilledNext(b, m, a, g, rank, keyAt, p, k, n, a.rows[k].cells[n], ReachList(g, rank, keyAt, ps, rank[p]),
      GrownList(g, rank, keyAt, p, n, ps));
  }

  lemma ListShown(index: map<Id, Key>, g: Memory, keyAt: map<Class, nat>, ps: seq<Option<Ptr>>, c: Cell)
    requires AllKeyed(g, keyAt) && AllIn(g, ps) && Indexed(index, EntryIds(g, keyAt, ps)) && c.LinksCell?
    ensures Shows(index, g, keyAt, Pointers(ps), c)
  {
    EntriesShown(index, g, keyAt, ps);
  }

  lemma {:induction false} EntriesShown(index: map<Id, Key>, g: Memory, keyAt: map<Class, nat>, ps: seq<Option<Ptr>>)
    requires AllKeyed(g, keyAt) && AllIn(g, ps) && Indexed(index, EntryIds(g, keyAt, ps))
    ensures forall j :: 0 <= j < |ps| && ps[j].Some? ==> IdOf(g, keyAt, ps[j].value) in index
  {
    if ps != [] {
      var last := ps[|ps| - 1];
      var init := EntryIds(g, keyAt, ps[..|ps| - 1]);
      assert forall j :: 0 <= j < |init| ==> init[j] == EntryIds(g, keyAt, ps)[j];
      EntriesShown(index, g, keyAt, ps[..|ps| - 1]);
      if last.Some? {
        assert EntryIds(g, keyAt, ps)[|init|] == IdOf(g, keyAt, last.value);
      }
    }
  }

  /** Importing one entry and appending its key, once its row is complete. */
  method AddEntry(s: Store, g: Memory, ghost rank: map<Ptr, nat>, keyAt: map<Class, nat>, p: Ptr, k: Key, i: nat, x: Ptr)
    requires s.Valid() && Graph(g, rank, keyAt) && DistinctIds(g, keyAt) && NoPrimitiveLists(g) && Typed(s.schema, g)
    requires p in g && x in g && rank[x] < rank[p] && HasRow(Snap(s), IdOf(g, keyAt, p), k)
    requires i < |g[p].fields| && g[p].fields[i].Pointers? && Some(x) in g[p].fields[i].ps
    modifies s
    ensures s.Valid() && Wrote(old(Snap(s)), Snap(s), {IdOf(g, keyAt, p)} + Reach(g, rank, keyAt, x))
    ensures Tended(old(Snap(s)), Snap(s), g, keyAt, Sum(Grown(g, rank, keyAt, x), OneEntry(p, i, IdOf(g, keyAt, x))))
    ensures AllReflect(Snap(s), g, keyAt, Reach(g, rank, keyAt, x))
    ensures ListRow(old(Snap(s)), Snap(s), k, i, [IdOf(g, keyAt, x)])
    decreases rank[p], 1, 0
  {
    ghost var start := Snap(s);
    var c := Import(s, g, rank, keyAt, x);
    ghost var imported := Snap(s);
    ParentUntouched(start, imported, g, rank, keyAt, p, x);
    AppendKey(s, g, keyAt, p, k, i, x, c);
    EntryAdded(start, imported, Snap(s), g, rank, keyAt, p, k, i, x);
  }

  lemma EntryAdded(b: Snapshot, m: Snapshot, a: Snapshot, g: Memory, rank: map<Ptr, nat>, keyAt: map<Class, nat>,
      p: Ptr, k: Key, i: nat, x: Ptr)
    requires Graph(g, rank, keyAt) && DistinctIds(g, keyAt) && p in g && x in g && rank[x] < rank[p]
    requires IndexMatches(m.rows, m.index) && Wrote(b, m, Reach(g, rank, keyAt, x)) && Wrote(m, a, {IdOf(g, keyAt, p)})
    requires Tended(b, m, g, keyAt, Grown(g, rank, keyAt, x)) && Tended(m, a, g, keyAt, OneEntry(p, i, IdOf(g, keyAt, x)))
    requires AllReflect(m, g, keyAt, Reach(g, rank, keyAt, x))
    requires k in b.rows && k in m.rows && m.rows[k] == b.rows[k] && ListRow(m, a, k, i, [IdOf(g, keyAt, x)])
    ensures Wrote(b, a, {IdOf(g, keyAt, p)} + Reach(g, rank, keyAt, x))
    ensures Tended(b, a, g, keyAt, Sum(Grown(g, rank, keyAt, x), OneEntry(p, i, IdOf(g, keyAt, x))))
    ensures AllReflect(a, g, keyAt, Reach(g, rank, keyAt, x)) && ListRow(b, a, k, i, [IdOf(g, keyAt, x)])
  {
    var id, reached := IdOf(g, keyAt, p), Reach(g, rank, keyAt, x);
    WroteTwice(b, m, a, reached, {id});
    SetsSwap(reached, id);
    TendedTwice(b, m, a, g, keyAt, Grown(g, rank, keyAt, x), OneEntry(p, i, IdOf(g, keyAt, x)), {id});
    if id in reached {
      ReachDescends(g, rank, keyAt, x, |g[x].fields|, p);
    }
    AllStillReflect(m, a, g, keyAt, reached, {id}, {});
    assert AllReflect(a, g, keyAt, (reached - {id}) + {});
  }

  lemma SetsSwap(ids: set<Id>, id: Id)
    ensures ids + {id} == {id} + ids
  {
  }

  method AppendKey(s: Store, g: Memory, keyAt: map<Class, nat>, p: Ptr, k: Key, i: nat, x: Ptr, c: Key)
    requires s.Valid() && AllKeyed(g, keyAt) && DistinctIds(g, keyAt) && Typed(s.schema, g) && p in g && x in g
    requires HasRow(Snap(s), IdOf(g, keyAt, p), k) && HasRow(Snap(s), IdOf(g, keyAt, x), c)
    requires i < |g[p].fields| && g[p].fields[i].Pointers? && Some(x) in g[p].fields[i].ps
    modifies s
    ensures s.Valid() && Wrote(old(Snap(s)), Snap(s), {IdOf(g, keyAt, p)})
    ensures Tended(old(Snap(s)), Snap(s), g, keyAt, OneEntry(p, i, IdOf(g, keyAt, x)))
    ensures ListRow(old(Snap(s)), Snap(s), k, i, [IdOf(g, keyAt, x)])
  {
    ghost var start := Snap(s);
    ListCellTyped(s.schema, s.rows, s.rows[k], g, p, i, x);
    var links := s.rows[k].cells[i].links;
    s.Write(k, i, LinksCell(links + [c]));
    WriteKeepsNulls(start, Snap(s), g, keyAt, p, i, LinksCell(links + [c]));
    AppendGrows(start, Snap(s), g, keyAt, p, k, i, IdOf(g, keyAt, x));
  }

  lemma ListCellTyped(schema: Schema, rows: Rows, row: Row, g: Memory, p: Ptr, i: nat, x: Ptr)
    requires Typed(schema, g) && p in g && x in g && row.cls == g[p].cls && RowTyped(schema, rows, row)
    requires i < |g[p].fields| && g[p].fields[i].Pointers? && Some(x) in g[p].fields[i].ps
    ensures i < |row.cells| && row.cells[i].LinksCell? && schema[row.cls][i] == LinksType(g[x].cls)
    ensures CellTyped(rows, row.cells[i], schema[row.cls][i])
  {
    assert FieldTyped(g, g[p].fields[i], schema[g[p].cls][i]);
    assert CellTyped(rows, row.cells[i], schema[row.cls][i]);
  }

  lemma AppendGrows(b: Snapshot, a: Snapshot, g: Memory, keyAt: map<Class, nat>, p: Ptr, k: Key, i: nat, id: Id)
    requires AllKeyed(g, keyAt) && DistinctIds(g, keyAt) && p in g && IndexMatches(b.rows, b.index)
    requires HasRow(b, IdOf(g, keyAt, p), k) && i < |b.rows[k].cells| && b.rows[k].cells[i].LinksCell? && id in b.index
    requires a == b.(rows := b.rows[k := WithCell(b.rows[k], i, LinksCell(b.rows[k].cells[i].links + [b.index[id]]))])
    ensures ListsGrew(b, a, g, keyAt, OneEntry(p, i, id)) && ListRow(b, a, k, i, [id])
  {
    assert KeysOf(a.index, [id]) == [b.index[id]] && KeysOf(a.index, []) == [];
    forall q, j | q in g && 0 <= j < |g[q].fields| && g[q].fields[j].Pointers?
      ensures Indexed(a.index, OneEntry(p, i, id)(q, j))
      ensures LinksIn(a, g, keyAt, q, j) == LinksIn(b, g, keyAt, q, j) + KeysOf(a.index, OneEntry(p, i, id)(q, j))
    {
      if IdOf(g, keyAt, q) in b.index && b.index[IdOf(g, keyAt, q)] == k {
        assert q == p;
      }
    }
  }

  /** The stored links of an object are null where its pointers are. */
  ghost predicate NullsClear(t: Snapshot, g: Memory, keyAt: map<Class, nat>, p: Ptr)
    requires AllKeyed(g, keyAt) && p in g
  {
    forall i :: 0 <= i < |g[p].fields| && g[p].fields[i] == Pointer(None) ==> NullCell(t, g, keyAt, p, i) == LinkCell(None)
  }

  ghost predicate AllNullsClear(t: Snapshot, g: Memory, keyAt: map<Class, nat>, ids: set<Id>)
    requires AllKeyed(g, keyAt)
  {
    forall p :: p in g && IdOf(g, keyAt, p) in ids ==> NullsClear(t, g, keyAt, p)
  }

  /** Finding or creating the row of an object, and filling it. */
  method Import(s: Store, g: Memory, ghost rank: map<Ptr, nat>, keyAt: map<Class, nat>, p: Ptr) returns (k: Key)
    requires s.Valid() && Graph(g, rank, keyAt) && DistinctIds(g, keyAt) && NoPrimitiveLists(g) && Typed(s.schema, g)
    requires p in g
    modifies s
    ensures s.Valid() && Wrote(old(Snap(s)), Snap(s), Reach(g, rank, keyAt, p))
    ensures HasRow(Snap(s), IdOf(g, keyAt, p), k)
    ensures Tended(old(Snap(s)), Snap(s), g, keyAt, Grown(g, rank, keyAt, p))
    ensures AllReflect(Snap(s), g, keyAt, Reach(g, rank, keyAt, p))
    decreases rank[p], 5
  {
    ghost var start := Snap(s);
    k := Locate(s, g, keyAt, p);
    ghost var located := Snap(s);
    Fill(s, g, rank, keyAt, p, k);
    Added(start, located, Snap(s), g, rank, keyAt, p);
  }

  lemma Added(b: Snapshot, m: Snapshot, a: Snapshot, g: Memory, rank: map<Ptr, nat>, keyAt: map<Class, nat>, p: Ptr)
    requires Graph(g, rank, keyAt) && p in g && IdOf(g, keyAt, p) in m.index
    requires Wrote(b, m, {IdOf(g, keyAt, p)}) && Wrote(m, a, Reach(g, rank, keyAt, p))
    requires Tended(b, m, g, keyAt, NO_GROWTH) && Tended(m, a, g, keyAt, Grown(g, rank, keyAt, p))
    ensures Wrote(b, a, Reach(g, rank, keyAt, p)) && Tended(b, a, g, keyAt, Grown(g, rank, keyAt, p))
    ensures IdOf(g, keyAt, p) in a.index && a.index[IdOf(g, keyAt, p)] == m.index[IdOf(g, keyAt, p)]
  {
    var reached := Reach(g, rank, keyAt, p);
    ReachHasRoot(g, rank, keyAt, p, |g[p].fields|);
    WroteTwice(b, m, a, {IdOf(g, keyAt, p)}, reached);
    IdAbsorbed(reached, IdOf(g, keyAt, p), {});
    TendedAfterNothing(b, m, a, g, keyAt, Grown(g, rank, keyAt, p), reached);
    assert IdOf(g, keyAt, p) in a.index.Keys;
  }

  /** `db::add` for a keyed class. Every object reached has one row, holding its scalars
      and linking to the rows of the objects it points to, and no other row changes. Null
      pointers are not written, so the links mirror the pointers exactly when no row that
      was there already, for an object reached, links somewhere its pointer is null. Lists
      are appended to: a list grows by its entries once for every pointer path that leads
      from the root to the object it belongs to. */
  method Add(s: Store, g: Memory, ghost rank: map<Ptr, nat>, keyAt: map<Class, nat>, p: Ptr) returns (k: Key)
    requires s.Valid() && Graph(g, rank, keyAt) && DistinctIds(g, keyAt) && NoPrimitiveLists(g) && Typed(s.schema, g)
    requires p in g
    modifies s
    ensures s.Valid() && Wrote(old(Snap(s)), Snap(s), Reach(g, rank, keyAt, p))
    ensures HasRow(Snap(s), IdOf(g, keyAt, p), k)
    ensures AllReflect(Snap(s), g, keyAt, Reach(g, rank, keyAt, p))
    ensures ListsGrew(old(Snap(s)), Snap(s), g, keyAt, Grown(g, rank, keyAt, p))
    ensures AllNullsClear(Snap(s), g, keyAt, Reach(g, rank, keyAt, p))
            <==> AllNullsClear(old(Snap(s)), g, keyAt, Reach(g, rank, keyAt, p))
    ensures old(s.index) == map[] ==>
      && |s.index| == |Reach(g, rank, keyAt, p)| && s.next == old(s.next) + |Reach(g, rank, keyAt, p)|
      && AllNullsClear(Snap(s), g, keyAt, Reach(g, rank, keyAt, p))
  {
    ghost var start := Snap(s);
    k := Import(s, g, rank, keyAt, p);
    NullsClearOrNot(start, Snap(s), g, keyAt, Reach(g, rank, keyAt, p));
    if start.index == map[] {
      FreshIndexSize(start, Snap(s), Reach(g, rank, keyAt, p));
    }
  }

  lemma NullsClearOrNot(b: Snapshot, a: Snapshot, g: Memory, keyAt: map<Class, nat>, ids: set<Id>)
    requires AllKeyed(g, keyAt) && NullsKept(b, a, g, keyAt)
    ensures AllNullsClear(a, g, keyAt, ids) <==> AllNullsClear(b, g, keyAt, ids)
    ensures b.index == map[] ==> AllNullsClear(b, g, keyAt, ids)
  {
    forall p | p in g && IdOf(g, keyAt, p) in ids
      ensures NullsClear(a, g, keyAt, p) <==> NullsClear(b, g, keyAt, p)
    {
      assert forall i :: 0 <= i < |g[p].fields| && g[p].fields[i] == Pointer(None) ==>
        NullCell(a, g, keyAt, p, i) == NullCell(b, g, keyAt, p, i);
    }
  }
}
