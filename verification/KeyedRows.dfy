/** What the store holds for keyed objects, what an import changes in it, and when rows
    mirror objects. */
module KeyedRows {
  import opened GraphStore
  import opened KeyedGraphs
  import opened Options

  /** What the store holds at one moment. */
  datatype Snapshot = Snapshot(rows: Rows, index: map<Id, Key>, next: Key)

  ghost function Snap(s: Store): Snapshot
    reads s
  {
    Snapshot(s.rows, s.index, s.next)
  }

  // ----- what an import changes -----

  /** From `b` to `a` the ids became present, and a row exists for each new one. */
  ghost predicate IndexGrew(b: Snapshot, a: Snapshot, ids: set<Id>) {
    && a.index.Keys == b.index.Keys + ids
    && (forall id :: id in b.index ==> a.index[id] == b.index[id])
    && a.next - |a.index| == b.next - |b.index|
  }

  /** Rows stay, keep their class and key, and change only where their id is listed. */
  ghost predicate RowsKept(b: Snapshot, a: Snapshot, ids: set<Id>) {
    forall k :: k in b.rows ==>
      && k in a.rows && a.rows[k].cls == b.rows[k].cls && a.rows[k].pk == b.rows[k].pk
      && (a.rows[k] == b.rows[k] || (b.rows[k].pk.Some? && (b.rows[k].cls, b.rows[k].pk.value) in ids))
  }

  ghost predicate Wrote(b: Snapshot, a: Snapshot, ids: set<Id>) {
    IndexGrew(b, a, ids) && RowsKept(b, a, ids)
  }

  lemma IndexGrewTwice(b: Snapshot, m: Snapshot, a: Snapshot, ids: set<Id>, more: set<Id>)
    requires IndexGrew(b, m, ids) && IndexGrew(m, a, more)
    ensures IndexGrew(b, a, ids + more)
  {
    forall id | id in b.index ensures a.index[id] == b.index[id] {
      assert id in m.index.Keys;
    }
  }

  lemma WroteTwice(b: Snapshot, m: Snapshot, a: Snapshot, ids: set<Id>, more: set<Id>)
    requires Wrote(b, m, ids) && Wrote(m, a, more)
    ensures Wrote(b, a, ids + more)
  {
    IndexGrewTwice(b, m, a, ids, more);
  }

  lemma IdAbsorbed(ids: set<Id>, id: Id, more: set<Id>)
    requires id in ids
    ensures ids + ({id} + more) == ids + more && {id} + ids == ids
  {
  }

  lemma TargetAbsorbed(ids: set<Id>, id: Id, other: Id)
    requires id in ids
    ensures {id} + {other} + ids == {other} + ids
  {
  }

  lemma FreshIndexSize(b: Snapshot, a: Snapshot, ids: set<Id>)
    requires IndexGrew(b, a, ids) && b.index == map[]
    ensures |a.index| == |ids| && a.next == b.next + |ids|
  {
    assert a.index.Keys == ids && |a.index| == |a.index.Keys|;
  }

  /** What the row of `q` holds for its null pointer `i`: nothing is written there. */
  ghost function NullCell(t: Snapshot, g: Memory, keyAt: map<Class, nat>, q: Ptr, i: nat): Cell
    requires Keyed(g, keyAt, q)
  {
    var id := IdOf(g, keyAt, q);
    if id in t.index && t.index[id] in t.rows && i < |t.rows[t.index[id]].cells| then t.rows[t.index[id]].cells[i]
    else LinkCell(None)
  }

  ghost predicate NullsKept(b: Snapshot, a: Snapshot, g: Memory, keyAt: map<Class, nat>)
    requires AllKeyed(g, keyAt)
  {
    forall q, i {:trigger NullCell(a, g, keyAt, q, i)} ::
      q in g && 0 <= i < |g[q].fields| && g[q].fields[i] == Pointer(None) ==>
      NullCell(a, g, keyAt, q, i) == NullCell(b, g, keyAt, q, i)
  }

  lemma NullsKeptTwice(b: Snapshot, m: Snapshot, a: Snapshot, g: Memory, keyAt: map<Class, nat>)
    requires AllKeyed(g, keyAt) && NullsKept(b, m, g, keyAt) && NullsKept(m, a, g, keyAt)
    ensures NullsKept(b, a, g, keyAt)
  {
    forall q, i | q in g && 0 <= i < |g[q].fields| && g[q].fields[i] == Pointer(None)
      ensures NullCell(a, g, keyAt, q, i) == NullCell(b, g, keyAt, q, i)
    {
      assert NullCell(a, g, keyAt, q, i) == NullCell(m, g, keyAt, q, i);
    }
  }

  // ----- lists -----

  /** The links in list `i` of the row of `q`. */
  ghost function LinksIn(t: Snapshot, g: Memory, keyAt: map<Class, nat>, q: Ptr, i: nat): seq<Key>
    requires Keyed(g, keyAt, q)
  {
    var id := IdOf(g, keyAt, q);
    if id in t.index && t.index[id] in t.rows && i < |t.rows[t.index[id]].cells| && t.rows[t.index[id]].cells[i].LinksCell?
    then t.rows[t.index[id]].cells[i].links
    else []
  }

  function KeysOf(index: map<Id, Key>, ids: seq<Id>): seq<Key> {
    seq(|ids|, j requires 0 <= j < |ids| => if ids[j] in index then index[ids[j]] else 0)
  }

  ghost predicate Indexed(index: map<Id, Key>, ids: seq<Id>) {
    forall j :: 0 <= j < |ids| ==> ids[j] in index
  }

  /** What is appended to each list of each object. */
  type Growth = (Ptr, nat) -> seq<Id>

  const NO_GROWTH: Growth := (q, i) => []

  ghost predicate ListsGrew(b: Snapshot, a: Snapshot, g: Memory, keyAt: map<Class, nat>, grown: Growth)
    requires AllKeyed(g, keyAt)
  {
    forall q, i {:trigger LinksIn(a, g, keyAt, q, i)} :: q in g && 0 <= i < |g[q].fields| && g[q].fields[i].Pointers? ==>
      && Indexed(a.index, grown(q, i))
      && LinksIn(a, g, keyAt, q, i) == LinksIn(b, g, keyAt, q, i) + KeysOf(a.index, grown(q, i))
  }

  /** Null pointers were left alone and lists appended to. */
  ghost predicate Tended(b: Snapshot, a: Snapshot, g: Memory, keyAt: map<Class, nat>, grown: Growth)
    requires AllKeyed(g, keyAt)
  {
    NullsKept(b, a, g, keyAt) && ListsGrew(b, a, g, keyAt, grown)
  }

  function Sum(d: Growth, e: Growth): Growth {
    (q, i) => d(q, i) + e(q, i)
  }

  lemma KeysStay(b: Snapshot, a: Snapshot, ids: set<Id>, s: seq<Id>)
    requires IndexGrew(b, a, ids) && Indexed(b.index, s)
    ensures Indexed(a.index, s) && KeysOf(a.index, s) == KeysOf(b.index, s)
  {
    forall j | 0 <= j < |s| ensures s[j] in a.index && a.index[s[j]] == b.index[s[j]] {
      assert s[j] in a.index.Keys;
    }
  }

  lemma KeysOfSum(index: map<Id, Key>, s: seq<Id>, t: seq<Id>)
    requires Indexed(index, s) && Indexed(index, t)
    ensures Indexed(index, s + t) && KeysOf(index, s + t) == KeysOf(index, s) + KeysOf(index, t)
  {
  }

  /** Appending twice. */
  lemma AppendedTwice(m: Snapshot, a: Snapshot, ids: set<Id>, x: seq<Key>, y: seq<Key>, z: seq<Key>, s: seq<Id>, t: seq<Id>)
    requires IndexGrew(m, a, ids) && Indexed(m.index, s) && Indexed(a.index, t)
    requires y == x + KeysOf(m.index, s) && z == y + KeysOf(a.index, t)
    ensures Indexed(a.index, s + t) && z == x + KeysOf(a.index, s + t)
  {
    KeysStay(m, a, ids, s);
    KeysOfSum(a.index, s, t);
    Regrouped(x, KeysOf(a.index, s), KeysOf(a.index, t));
  }

  lemma Regrouped(x: seq<Key>, y: seq<Key>, z: seq<Key>)
    ensures x + y + z == x + (y + z)
  {
  }

  lemma ListGrewTwice(b: Snapshot, m: Snapshot, a: Snapshot, g: Memory, keyAt: map<Class, nat>,
      d: Growth, e: Growth, ids: set<Id>, q: Ptr, i: nat)
    requires AllKeyed(g, keyAt) && ListsGrew(b, m, g, keyAt, d) && ListsGrew(m, a, g, keyAt, e) && IndexGrew(m, a, ids)
    requires q in g && i < |g[q].fields| && g[q].fields[i].Pointers?
    ensures Indexed(a.index, d(q, i) + e(q, i))
    ensures LinksIn(a, g, keyAt, q, i) == LinksIn(b, g, keyAt, q, i) + KeysOf(a.index, d(q, i) + e(q, i))
  {
    AppendedTwice(m, a, ids, LinksIn(b, g, keyAt, q, i), LinksIn(m, g, keyAt, q, i), LinksIn(a, g, keyAt, q, i),
      d(q, i), e(q, i));
  }

  lemma ListsGrewTwice(b: Snapshot, m: Snapshot, a: Snapshot, g: Memory, keyAt: map<Class, nat>,
      d: Growth, e: Growth, ids: set<Id>)
    requires AllKeyed(g, keyAt) && ListsGrew(b, m, g, keyAt, d) && ListsGrew(m, a, g, keyAt, e) && IndexGrew(m, a, ids)
    ensures ListsGrew(b, a, g, keyAt, Sum(d, e))
  {
    forall q, i | q in g && 0 <= i < |g[q].fields| && g[q].fields[i].Pointers?
      ensures Indexed(a.index, Sum(d, e)(q, i))
      ensures LinksIn(a, g, keyAt, q, i) == LinksIn(b, g, keyAt, q, i) + KeysOf(a.index, Sum(d, e)(q, i))
    {
      ListGrewTwice(b, m, a, g, keyAt, d, e, ids, q, i);
    }
  }

  lemma TendedTwice(b: Snapshot, m: Snapshot, a: Snapshot, g: Memory, keyAt: map<Class, nat>,
      d: Growth, e: Growth, ids: set<Id>)
    requires AllKeyed(g, keyAt) && Tended(b, m, g, keyAt, d) && Tended(m, a, g, keyAt, e) && IndexGrew(m, a, ids)
    ensures Tended(b, a, g, keyAt, Sum(d, e))
  {
    NullsKeptTwice(b, m, a, g, keyAt);
    ListsGrewTwice(b, m, a, g, keyAt, d, e, ids);
  }

  /** The same growth, written differently. */
  ghost predicate SameGrowth(g: Memory, d: Growth, e: Growth) {
    forall q, i: nat {:trigger d(q, i)} :: q in g && i < |g[q].fields| ==> d(q, i) == e(q, i)
  }

  lemma TendedAs(b: Snapshot, a: Snapshot, g: Memory, keyAt: map<Class, nat>, d: Growth, e: Growth)
    requires AllKeyed(g, keyAt) && Tended(b, a, g, keyAt, d) && SameGrowth(g, d, e)
    ensures Tended(b, a, g, keyAt, e)
  {
    forall q, i | q in g && 0 <= i < |g[q].fields| && g[q].fields[i].Pointers?
      ensures Indexed(a.index, e(q, i))
      ensures LinksIn(a, g, keyAt, q, i) == LinksIn(b, g, keyAt, q, i) + KeysOf(a.index, e(q, i))
    {
      assert d(q, i) == e(q, i);
      assert LinksIn(a, g, keyAt, q, i) == LinksIn(b, g, keyAt, q, i) + KeysOf(a.index, d(q, i));
    }
  }

  // ----- rows mirroring objects -----

  /** A stored cell shows a property: its scalar, or a link to the row of what it points to.
      What a list points to has rows; which of them the list holds is said by `ListsGrew`. */
  ghost predicate Shows(index: map<Id, Key>, g: Memory, keyAt: map<Class, nat>, f: Field, c: Cell)
    requires AllKeyed(g, keyAt)
  {
    match f
    case Scalar(v) => c == ScalarCell(v)
    case Pointer(Some(p)) => p in g && IdOf(g, keyAt, p) in index && c == LinkCell(Some(index[IdOf(g, keyAt, p)]))
    case Pointers(ps) =>
      c.LinksCell? && forall j :: 0 <= j < |ps| && ps[j].Some? ==> ps[j].value in g && IdOf(g, keyAt, ps[j].value) in index
    case _ => true
  }

  ghost predicate ShowsFirst(index: map<Id, Key>, g: Memory, keyAt: map<Class, nat>, p: Ptr, row: Row, n: nat)
    requires AllKeyed(g, keyAt) && p in g
  {
    |row.cells| == |g[p].fields| && n <= |row.cells|
    && forall i :: 0 <= i < n ==> Shows(index, g, keyAt, g[p].fields[i], row.cells[i])
  }

  /** The row of `p` shows every property of `p`. */
  ghost predicate Reflects(t: Snapshot, g: Memory, keyAt: map<Class, nat>, p: Ptr)
    requires AllKeyed(g, keyAt) && p in g
  {
    var id := IdOf(g, keyAt, p);
    id in t.index && t.index[id] in t.rows && ShowsFirst(t.index, g, keyAt, p, t.rows[t.index[id]], |g[p].fields|)
  }

  ghost predicate AllReflect(t: Snapshot, g: Memory, keyAt: map<Class, nat>, ids: set<Id>)
    requires AllKeyed(g, keyAt)
  {
    forall p :: p in g && IdOf(g, keyAt, p) in ids ==> Reflects(t, g, keyAt, p)
  }

  /** Why keys have to be distinct: a store that shows two objects of one key shows the
      same scalars and the same targets for both. */
  lemma SharedKeysAgree(t: Snapshot, g: Memory, keyAt: map<Class, nat>, p: Ptr, q: Ptr, i: nat)
    requires AllKeyed(g, keyAt) && p in g && q in g && IdOf(g, keyAt, p) == IdOf(g, keyAt, q)
    requires i < |g[p].fields| && IndexMatches(t.rows, t.index) && Reflects(t, g, keyAt, p) && Reflects(t, g, keyAt, q)
    ensures |g[p].fields| == |g[q].fields|
    ensures match (g[p].fields[i], g[q].fields[i])
            case (Scalar(v), Scalar(w)) => v == w
            case (Pointer(Some(x)), Pointer(Some(y))) => x in g && y in g && IdOf(g, keyAt, x) == IdOf(g, keyAt, y)
            case _ => true
  {
    var row := t.rows[t.index[IdOf(g, keyAt, p)]];
    assert Shows(t.index, g, keyAt, g[p].fields[i], row.cells[i]) && Shows(t.index, g, keyAt, g[q].fields[i], row.cells[i]);
  }

  lemma ShowsStays(b: Snapshot, a: Snapshot, g: Memory, keyAt: map<Class, nat>, ids: set<Id>, p: Ptr, row: Row, n: nat)
    requires AllKeyed(g, keyAt) && p in g && IndexGrew(b, a, ids) && ShowsFirst(b.index, g, keyAt, p, row, n)
    ensures ShowsFirst(a.index, g, keyAt, p, row, n)
  {
    forall i | 0 <= i < n ensures Shows(a.index, g, keyAt, g[p].fields[i], row.cells[i]) {
      match g[p].fields[i]
      case Pointer(Some(q)) => assert IdOf(g, keyAt, q) in a.index.Keys;
      case Pointers(ps) =>
        forall j | 0 <= j < |ps| && ps[j].Some? ensures IdOf(g, keyAt, ps[j].value) in a.index {
          assert IdOf(g, keyAt, ps[j].value) in a.index.Keys;
        }
      case _ =>
    }
  }

  /** A row not written keeps reflecting its object. */
  lemma StillReflects(b: Snapshot, a: Snapshot, g: Memory, keyAt: map<Class, nat>, ids: set<Id>, p: Ptr)
    requires AllKeyed(g, keyAt) && p in g && Wrote(b, a, ids) && IndexMatches(b.rows, b.index)
    requires IdOf(g, keyAt, p) !in ids && Reflects(b, g, keyAt, p)
    ensures Reflects(a, g, keyAt, p)
  {
    var id := IdOf(g, keyAt, p);
    assert id in a.index.Keys && a.rows[a.index[id]] == b.rows[b.index[id]];
    ShowsStays(b, a, g, keyAt, ids, p, b.rows[b.index[id]], |g[p].fields|);
  }

  lemma AllStillReflect(b: Snapshot, a: Snapshot, g: Memory, keyAt: map<Class, nat>, done: set<Id>,
      ids: set<Id>, now: set<Id>)
    requires AllKeyed(g, keyAt) && Wrote(b, a, ids) && IndexMatches(b.rows, b.index)
    requires AllReflect(b, g, keyAt, done) && AllReflect(a, g, keyAt, now)
    ensures AllReflect(a, g, keyAt, (done - ids) + now)
  {
    forall p | p in g && IdOf(g, keyAt, p) in (done - ids) + now ensures Reflects(a, g, keyAt, p) {
      if IdOf(g, keyAt, p) !in now {
        StillReflects(b, a, g, keyAt, ids, p);
      }
    }
  }
}
