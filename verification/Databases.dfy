/** Databases: rows with properties, and links between them. A condition holds of a row if
    it holds of the property found by following the links of its path. */
module Databases {
  import opened Bridge
  import opened Objects
  import opened Options
  import opened QueryLanguage

  type Key = nat

  type Path = seq<ColKey>

  datatype Slot = Slot(column: Column, col: ColKey)

  type Properties = map<Slot, Value>

  type Database = map<Key, Properties>

  predicate BothEntries(l: Column, m: Column) {
    l.EntryColumn? && m.EntryColumn?
  }

  /** A stored column has one kind; a link is null or leads to a row there is. */
  predicate PropertiesFit(db: Database, ps: Properties) {
    && (forall s, t :: s in ps && t in ps && s.col == t.col ==>
          s.column == t.column || BothEntries(s.column, t.column))
    && (forall s :: s in ps ==> Storable(ps[s]) && (ps[s].Object? ==> ps[s].key in db))
    && (forall s :: s in ps && s.column.LinkColumn? ==> ps[s].Null? || ps[s].Object?)
  }

  predicate WellFormed(db: Database) {
    forall k :: k in db ==> PropertiesFit(db, db[k])
  }

  /** Where a path of links ends: at a row, behind a null link, or at no link. */
  datatype End = At(key: Key) | BehindNull | NoLink

  function Follow(db: Database, k: Key, path: Path): End
    decreases |path|
  {
    if path == [] then At(k)
    else
      var s := Slot(LinkColumn, path[0]);
      if k !in db || s !in db[k] then NoLink
      else match db[k][s]
        case Null => BehindNull
        case Object(next) => Follow(db, next, path[1..])
        case _ => NoLink
  }

  /** The value a row shows at a location; null behind a null link. */
  function Read(db: Database, k: Key, l: Location): Option<Value> {
    match Follow(db, k, l.path)
    case At(e) => if e in db && Slot(l.column, l.col) in db[e] then Some(db[e][Slot(l.column, l.col)]) else None
    case BehindNull => Some(Null)
    case NoLink => None
  }

  lemma {:induction false} FollowTwice(db: Database, k: Key, path: Path, more: Path)
    ensures Follow(db, k, path + more)
            == match Follow(db, k, path) case At(e) => Follow(db, e, more) case end => end
    decreases |path|
  {
    if path == [] {
      assert path + more == more;
    } else {
      assert (path + more)[1..] == path[1..] + more;
      var s := Slot(LinkColumn, path[0]);
      if k in db && s in db[k] && db[k][s].Object? {
        FollowTwice(db, db[k][s].key, path[1..], more);
      }
    }
  }

  /** What is read through a link: behind a null link nothing but null, and behind any other
      what the row it leads to shows. */
  lemma ReadThroughLink(db: Database, k: Key, before: Path, col: ColKey, l: Location)
    requires var end := Follow(db, k, before); end.At? && end.key in db && Slot(LinkColumn, col) in db[end.key]
    requires before + [col] <= l.path
    ensures match db[Follow(db, k, before).key][Slot(LinkColumn, col)]
            case Null => Read(db, k, l) == Some(Null)
            case Object(next) => Read(db, k, l) == Read(db, next, l.(path := l.path[|before| + 1..]))
            case _ => Read(db, k, l) == None
  {
    var rest := l.path[|before|..];
    assert l.path == before + rest && rest[0] == col && rest[1..] == l.path[|before| + 1..];
    FollowTwice(db, k, before, rest);
  }

  /** The conditions that hold of a row. */
  ghost function RowAt(db: Database, k: Key): Row {
    iset c: Cond | Read(db, k, LocationOf(c)).Some? && Holds(c.op, Read(db, k, LocationOf(c)).value, c.rhs)
  }

  /** The row has every property the body compares, of its type, unless it is behind a null
      link, and the rows the body compares links with exist. */
  predicate Carries(db: Database, k: Key, b: Body) {
    match b
    case Compare(path, t) =>
      && Offered(t) && (t.rhs.Object? ==> t.rhs.key in db)
      && Read(db, k, LocationAt(path, t)).Some?
      && (Follow(db, k, path).At? ==> Admits(t, Read(db, k, LocationAt(path, t)).value))
    case Conj(x, y) => Carries(db, k, x) && Carries(db, k, y)
    case Disj(x, y) => Carries(db, k, x) && Carries(db, k, y)
    case Neg(x) => Carries(db, k, x)
  }

  /** A row of a database to which the body applies. */
  predicate Applies(db: Database, k: Key, b: Body) {
    WellFormed(db) && k in db && Carries(db, k, b)
  }

  /** No link on the way to a comparison is null. */
  predicate Navigable(db: Database, k: Key, b: Body) {
    match b
    case Compare(path, _) => Follow(db, k, path).At?
    case Conj(x, y) => Navigable(db, k, x) && Navigable(db, k, y)
    case Disj(x, y) => Navigable(db, k, x) && Navigable(db, k, y)
    case Neg(x) => Navigable(db, k, x)
  }

  /** What the body sees of a row. */
  function Seen(db: Database, k: Key, b: Body): (o: Object)
    requires Carries(db, k, b)
    ensures o.Keys == Locations(b) && forall l :: l in o ==> Read(db, k, l) == Some(o[l])
  {
    CarriedLocations(db, k, b);
    map l | l in Locations(b) :: Read(db, k, l).value
  }

  lemma {:induction false} CarriedLocations(db: Database, k: Key, b: Body)
    requires Carries(db, k, b)
    ensures forall l :: l in Locations(b) ==> Read(db, k, l).Some?
  {
    match b
    case Compare(_, _) =>
    case Neg(x) => CarriedLocations(db, k, x);
    case Conj(x, y) => CarriedLocations(db, k, x); CarriedLocations(db, k, y);
    case Disj(x, y) => CarriedLocations(db, k, x); CarriedLocations(db, k, y);
  }

  /** Where the row can be navigated, what is seen of it has the types of the body. */
  lemma {:induction false} SeenConforms(db: Database, k: Key, b: Body, o: Object)
    requires Carries(db, k, b) && Navigable(db, k, b)
    requires forall l :: l in Locations(b) ==> l in o && Read(db, k, l) == Some(o[l])
    ensures Conforms(o, b)
  {
    match b
    case Compare(path, t) => assert LocationAt(path, t) in Locations(b);
    case Neg(x) => SeenConforms(db, k, x, o);
    case Conj(x, y) => SeenConforms(db, k, x, o); SeenConforms(db, k, y, o);
    case Disj(x, y) => SeenConforms(db, k, x, o); SeenConforms(db, k, y, o);
  }

  /** The conditions of the body hold of a row just as they do of what is seen of it. */
  lemma SeenIsEnough(db: Database, k: Key, b: Body)
    requires Carries(db, k, b)
    ensures AgreeOn(Conds(b), RowAt(db, k), RowOf(Seen(db, k, b)))
  {
    CondsAreLocated(b);
  }

  // ----- a database with given values -----

  function Prefixes(path: Path): set<Path> {
    if path == [] then {[]} else Prefixes(path[..|path| - 1]) + {path}
  }

  lemma {:induction false} PrefixesOf(path: Path)
    ensures [] in Prefixes(path) && path in Prefixes(path)
    ensures Closed(Prefixes(path)) && forall p :: p in Prefixes(path) ==> p <= path
  {
    if path != [] {
      var front := path[..|path| - 1];
      PrefixesOf(front);
      forall p | p in Prefixes(path) ensures ParentIn(Prefixes(path), p) {
        if p != path {
          assert ParentIn(Prefixes(front), p);
        }
      }
    }
  }

  /** The paths the body navigates, with those on the way. */
  function Nodes(b: Body): set<Path> {
    match b
    case Compare(path, _) => Prefixes(path)
    case Conj(x, y) => Nodes(x) + Nodes(y)
    case Disj(x, y) => Nodes(x) + Nodes(y)
    case Neg(x) => Nodes(x)
  }

  predicate ParentIn(nodes: set<Path>, p: Path) {
    p != [] ==> p[..|p| - 1] in nodes
  }

  ghost predicate Closed(nodes: set<Path>) {
    forall p {:trigger ParentIn(nodes, p)} :: p in nodes ==> ParentIn(nodes, p)
  }

  lemma {:induction false} NodesAreClosed(b: Body)
    ensures [] in Nodes(b) && Closed(Nodes(b))
    ensures forall l :: l in Locations(b) ==> l.path in Nodes(b)
    decreases Size(b)
  {
    match b
    case Compare(path, _) => PrefixesOf(path);
    case Neg(x) => NodesAreClosed(x);
    case Conj(x, y) => UnionIsClosed(x, y);
    case Disj(x, y) => UnionIsClosed(x, y);
  }

  lemma {:induction false} UnionIsClosed(x: Body, y: Body)
    ensures [] in Nodes(x) + Nodes(y) && Closed(Nodes(x) + Nodes(y))
    ensures forall l :: l in Locations(x) + Locations(y) ==> l.path in Nodes(x) + Nodes(y)
    decreases Size(x) + Size(y)
  {
    NodesAreClosed(x);
    NodesAreClosed(y);
    forall p | p in Nodes(x) + Nodes(y) ensures ParentIn(Nodes(x) + Nodes(y), p) {
      assert p in Nodes(x) ==> ParentIn(Nodes(x), p);
      assert p in Nodes(y) ==> ParentIn(Nodes(y), p);
    }
  }

  /** A property no comparison leads through is not a link to a node. */
  lemma {:induction false} NotANode(b: Body, l: Location)
    requires forall m :: m in Locations(b) ==> !LeadsThrough(m, l)
    ensures l.path + [l.col] !in Nodes(b)
  {
    match b
    case Compare(path, t) =>
      PrefixesOf(path);
      assert LocationAt(path, t) in Locations(b);
    case Neg(x) => NotANode(x, l);
    case Conj(x, y) => NotANode(x, l); NotANode(y, l);
    case Disj(x, y) => NotANode(x, l); NotANode(y, l);
  }

  /** The locations of an independent body do not get in each other's way. */
  ghost predicate Unrelated(ls: set<Location>) {
    forall l, m :: l in ls && m in ls ==> !LeadsThrough(m, l) && (l != m ==> !Same(l, m))
  }

  lemma {:induction false} IndependentIsUnrelated(b: Body)
    requires Independent(b)
    ensures Unrelated(Locations(b))
  {
    match b
    case Compare(_, _) =>
    case Neg(x) => IndependentIsUnrelated(x);
    case Conj(x, y) => IndependentIsUnrelated(x); IndependentIsUnrelated(y);
    case Disj(x, y) => IndependentIsUnrelated(x); IndependentIsUnrelated(y);
  }

  ghost function Listed(nodes: set<Path>): (r: seq<Path>)
    ensures forall p :: p in r <==> p in nodes
  {
    if nodes == {} then [] else
      var p :| p in nodes;
      Listed(nodes - {p}) + [p]
  }

  /** A bound on the keys in the values of the object and in the operands of the body. */
  ghost function KeyBound(b: Body, o: Object): (n: nat)
    requires Conforms(o, b)
    ensures forall l :: l in Locations(b) ==> l in o && (o[l].Object? ==> o[l].key < n)
    ensures forall c :: c in Conds(b) && c.rhs.Object? ==> c.rhs.key < n
  {
    match b
    case Compare(path, t) =>
      var v := o[LocationAt(path, t)];
      (if v.Object? then v.key + 1 else 0) + (if t.rhs.Object? then t.rhs.key + 1 else 0)
    case Neg(x) => KeyBound(x, o)
    case Conj(x, y) => KeyBound(x, o) + KeyBound(y, o)
    case Disj(x, y) => KeyBound(x, o) + KeyBound(y, o)
  }

  /** The values the object has at one node. */
  function ValuesAt(o: Object, node: Path): Properties {
    map l | l in o && l.path == node :: Slot(l.column, l.col) := o[l]
  }

  /** The links that lead from a node to one of the listed paths. */
  function LinkSlots(ps: seq<Path>, node: Path): set<Slot> {
    if ps == [] then {}
    else
      var rest, p := LinkSlots(ps[1..], node), ps[0];
      if p != [] && p[..|p| - 1] == node then rest + {Slot(LinkColumn, p[|p| - 1])} else rest
  }

  lemma {:induction false} LinksLeadToNodes(ps: seq<Path>, node: Path)
    ensures forall s :: s in LinkSlots(ps, node) <==> s.column.LinkColumn? && node + [s.col] in ps
    decreases |ps|
  {
    if ps != [] {
      LinksLeadToNodes(ps[1..], node);
      var p := ps[0];
      forall s: Slot ensures p == node + [s.col] <==> p != [] && p[..|p| - 1] == node && s.col == p[|p| - 1] {
      }
    }
  }

  ghost function IndexOf(ps: seq<Path>, p: Path): (i: nat)
    requires p in ps
    ensures i < |ps| && ps[i] == p
  {
    var i: nat :| i < |ps| && ps[i] == p;
    i
  }

  /** The key of a node; the first `n` keys are for rows the values lead to. */
  ghost function KeyOf(ps: seq<Path>, n: nat, node: Path): Key
    requires node in ps
  {
    n + IndexOf(ps, node)
  }

  ghost function LinksAt(ps: seq<Path>, n: nat, node: Path): Properties {
    LinksLeadToNodes(ps, node);
    map s | s in LinkSlots(ps, node) :: Object(KeyOf(ps, n, node + [s.col]))
  }

  ghost function NodeRow(o: Object, ps: seq<Path>, n: nat, node: Path): Properties {
    ValuesAt(o, node) + LinksAt(ps, n, node)
  }

  ghost function RowFor(o: Object, ps: seq<Path>, n: nat, k: Key): Properties
    requires k < n + |ps|
  {
    if k < n then map[] else NodeRow(o, ps, n, ps[k - n])
  }

  ghost function Laid(o: Object, ps: seq<Path>, n: nat): (db: Database)
    ensures forall k: nat :: k in db <==> k < n + |ps|
  {
    map k: nat | k < n + |ps| :: RowFor(o, ps, n, k)
  }

  lemma LaidNode(o: Object, ps: seq<Path>, n: nat, node: Path)
    requires node in ps
    ensures KeyOf(ps, n, node) in Laid(o, ps, n) && Laid(o, ps, n)[KeyOf(ps, n, node)] == NodeRow(o, ps, n, node)
  {
  }

  /** A row links to another. */
  predicate HasLink(db: Database, from: Key, col: ColKey, to: Key) {
    from in db && Slot(LinkColumn, col) in db[from] && db[from][Slot(LinkColumn, col)] == Object(to)
  }

  /** The row of each node links to the row of the node below. */
  ghost predicate LinkedAt(db: Database, ps: seq<Path>, n: nat, node: Path, col: ColKey) {
    node in ps && node + [col] in ps ==> HasLink(db, KeyOf(ps, n, node), col, KeyOf(ps, n, node + [col]))
  }

  ghost predicate Linked(db: Database, ps: seq<Path>, n: nat) {
    forall node: Path, col: ColKey {:trigger LinkedAt(db, ps, n, node, col)} :: LinkedAt(db, ps, n, node, col)
  }

  lemma LaidIsLinked(o: Object, ps: seq<Path>, n: nat)
    ensures Linked(Laid(o, ps, n), ps, n)
  {
    forall node: Path, col: ColKey ensures LinkedAt(Laid(o, ps, n), ps, n, node, col) {
      if node in ps && node + [col] in ps {
        LaidNode(o, ps, n, node);
        LinksLeadToNodes(ps, node);
        assert Slot(LinkColumn, col) in LinksAt(ps, n, node);
      }
    }
  }

  /** Following a path from a node leads to the node of the whole path. */
  lemma {:induction false} FollowsNodes(db: Database, nodes: set<Path>, n: nat, node: Path, path: Path)
    requires Closed(nodes) && Linked(db, Listed(nodes), n) && node in nodes && node + path in nodes
    ensures Follow(db, KeyOf(Listed(nodes), n, node), path) == At(KeyOf(Listed(nodes), n, node + path))
    decreases |path|
  {
    if path == [] {
      assert node + path == node;
    } else {
      NextNode(nodes, node, path);
      assert LinkedAt(db, Listed(nodes), n, node, path[0]);
      FollowsNodes(db, nodes, n, node + [path[0]], path[1..]);
    }
  }

  lemma NextNode(nodes: set<Path>, p: Path, path: Path)
    requires Closed(nodes) && p + path in nodes && path != []
    ensures p + [path[0]] in nodes && p + path == p + [path[0]] + path[1..]
  {
    OnTheWay(nodes, p + path, |p| + 1);
    assert (p + path)[..|p| + 1] == p + [path[0]];
  }

  lemma {:induction false} OnTheWay(nodes: set<Path>, p: Path, i: nat)
    requires Closed(nodes) && p in nodes && i <= |p|
    ensures p[..i] in nodes
    decreases |p| - i
  {
    if i == |p| {
      assert p[..i] == p;
    } else {
      OnTheWay(nodes, p, i + 1);
      assert ParentIn(nodes, p[..i + 1]) && p[..i + 1][..i] == p[..i];
    }
  }

  /** Every compared value is at its node. */
  lemma LaidValue(o: Object, ps: seq<Path>, n: nat, l: Location)
    requires l in o && l.path in ps && l.path + [l.col] !in ps
    ensures var s := Slot(l.column, l.col);
      s in NodeRow(o, ps, n, l.path) && NodeRow(o, ps, n, l.path)[s] == o[l]
  {
    LinksLeadToNodes(ps, l.path);
    assert Slot(l.column, l.col) in ValuesAt(o, l.path);
  }

  /** The values can be stored, with keys below `n`, each column having one kind. */
  ghost predicate Storables(o: Object, n: nat) {
    && (forall l :: l in o ==> Storable(o[l]) && (o[l].Object? ==> o[l].key < n))
    && (forall l :: l in o && l.column.LinkColumn? ==> o[l].Null? || o[l].Object?)
    && (forall l, m :: l in o && m in o && l.path == m.path && l.col == m.col ==>
          l.column == m.column || BothEntries(l.column, m.column))
  }

  /** No value is where a link to a node has to be. */
  ghost predicate OutOfTheWay(o: Object, ps: seq<Path>) {
    forall l :: l in o ==> l.path + [l.col] !in ps
  }

  lemma LaidIsWellFormed(o: Object, ps: seq<Path>, n: nat)
    requires Storables(o, n) && OutOfTheWay(o, ps)
    ensures WellFormed(Laid(o, ps, n))
  {
    var db := Laid(o, ps, n);
    forall k: nat | k < n + |ps| ensures PropertiesFit(db, RowFor(o, ps, n, k)) {
      if k >= n {
        RowFits(o, ps, n, db, ps[k - n]);
      }
    }
  }

  lemma RowFits(o: Object, ps: seq<Path>, n: nat, db: Database, node: Path)
    requires Storables(o, n) && OutOfTheWay(o, ps) && forall k: nat :: k < n + |ps| ==> k in db
    ensures PropertiesFit(db, NodeRow(o, ps, n, node))
  {
    var vs, ls := ValuesAt(o, node), LinksAt(ps, n, node);
    ValuesFit(o, n, db, node);
    LinksLeadToNodes(ps, node);
    forall s, t | s in vs && t in ls ensures s.col != t.col {
      assert Location(node, s.column, s.col) in o;
    }
    UnionFits(db, vs, ls);
  }

  lemma ValuesFit(o: Object, n: nat, db: Database, node: Path)
    requires Storables(o, n) && forall k: nat :: k < n ==> k in db
    ensures PropertiesFit(db, ValuesAt(o, node))
  {
    var vs := ValuesAt(o, node);
    forall s | s in vs ensures Location(node, s.column, s.col) in o && vs[s] == o[Location(node, s.column, s.col)] {
    }
  }

  lemma UnionFits(db: Database, vs: Properties, ls: Properties)
    requires PropertiesFit(db, vs) && PropertiesFit(db, ls)
    requires forall s, t :: s in vs && t in ls ==> s.col != t.col
    ensures PropertiesFit(db, vs + ls)
  {
    var all := vs + ls;
    forall s, t | s in all && t in all && s.col == t.col ensures s.column == t.column || BothEntries(s.column, t.column) {
      assert s in vs <==> t in vs;
    }
  }

  /** A row of which the body sees given values, in a database made for them. */
  lemma Stored(b: Body, o: Object) returns (db: Database, k: Key)
    requires Unrelated(Locations(b)) && o.Keys == Locations(b) && Conforms(o, b)
    ensures Applies(db, k, b) && Navigable(db, k, b) && Seen(db, k, b) == o
    ensures forall p :: p in Nodes(b) ==> OnlyHas(db, k, p, o)
  {
    NodesAreClosed(b);
    var ps, n := Listed(Nodes(b)), KeyBound(b, o);
    db, k := Laid(o, ps, n), KeyOf(ps, n, []);
    ReadyToStore(b, o, n);
    LaidIsWellFormed(o, ps, n);
    LaidIsLinked(o, ps, n);
    AllRead(b, o, n);
    ShownIsCarried(db, k, b, o, n);
    SeenAsRead(db, k, b, o);
    forall p | p in Nodes(b) ensures OnlyHas(db, k, p, o) {
      LaidHas(o, Nodes(b), n, p);
    }
  }

  lemma LaidHas(o: Object, nodes: set<Path>, n: nat, p: Path)
    requires Closed(nodes) && [] in nodes && p in nodes && Linked(Laid(o, Listed(nodes), n), Listed(nodes), n)
    ensures OnlyHas(Laid(o, Listed(nodes), n), KeyOf(Listed(nodes), n, []), p, o)
  {
    LaidNode(o, Listed(nodes), n, p);
    LinksLeadToNodes(Listed(nodes), p);
    assert [] + p == p;
    FollowsNodes(Laid(o, Listed(nodes), n), nodes, n, [], p);
  }

  /** At the end of the path there is a row, with no properties but the given ones and links. */
  predicate OnlyHas(db: Database, k: Key, p: Path, o: Object) {
    var end := Follow(db, k, p);
    && end.At? && end.key in db
    && forall s :: s in db[end.key] ==> s.column.LinkColumn? || Location(p, s.column, s.col) in o
  }

  lemma AllRead(b: Body, o: Object, n: nat)
    requires o.Keys == Locations(b) && OutOfTheWay(o, Listed(Nodes(b))) && [] in Nodes(b)
    requires Linked(Laid(o, Listed(Nodes(b)), n), Listed(Nodes(b)), n)
    ensures var db, k := Laid(o, Listed(Nodes(b)), n), KeyOf(Listed(Nodes(b)), n, []);
      forall l :: l in Locations(b) ==> Follow(db, k, l.path).At? && Read(db, k, l) == Some(o[l])
  {
    NodesAreClosed(b);
    forall l | l in Locations(b)
      ensures var db, k := Laid(o, Listed(Nodes(b)), n), KeyOf(Listed(Nodes(b)), n, []);
        Follow(db, k, l.path).At? && Read(db, k, l) == Some(o[l])
    {
      LaidRead(o, Nodes(b), n, l);
    }
  }

  lemma SeenAsRead(db: Database, k: Key, b: Body, o: Object)
    requires Carries(db, k, b) && o.Keys == Locations(b) && forall l :: l in Locations(b) ==> Read(db, k, l) == Some(o[l])
    ensures Seen(db, k, b) == o
  {
  }

  lemma ReadyToStore(b: Body, o: Object, n: nat)
    requires Unrelated(Locations(b)) && o.Keys == Locations(b) && Conforms(o, b)
    requires forall l :: l in Locations(b) ==> o[l].Object? ==> o[l].key < n
    ensures Storables(o, n) && OutOfTheWay(o, Listed(Nodes(b)))
  {
    ConformingValues(b, o);
    forall l | l in o ensures l.path + [l.col] !in Listed(Nodes(b)) {
      NotANode(b, l);
    }
    forall l, m | l in o && m in o && l.path == m.path && l.col == m.col
      ensures l.column == m.column || BothEntries(l.column, m.column)
    {
      assert l in o.Keys && m in o.Keys && (l != m ==> !Same(l, m));
    }
  }

  lemma LaidRead(o: Object, nodes: set<Path>, n: nat, l: Location)
    requires Closed(nodes) && [] in nodes && l in o && l.path in nodes && l.path + [l.col] !in nodes
    requires Linked(Laid(o, Listed(nodes), n), Listed(nodes), n)
    ensures var db, k := Laid(o, Listed(nodes), n), KeyOf(Listed(nodes), n, []);
      Follow(db, k, l.path).At? && Read(db, k, l) == Some(o[l])
  {
    LaidNode(o, Listed(nodes), n, l.path);
    LaidValue(o, Listed(nodes), n, l);
    assert [] + l.path == l.path;
    FollowsNodes(Laid(o, Listed(nodes), n), nodes, n, [], l.path);
  }

  lemma {:induction false} ConformingValues(b: Body, o: Object)
    requires Conforms(o, b)
    ensures forall l :: l in Locations(b) ==> l in o && Storable(o[l])
    ensures forall l :: l in Locations(b) && l.column.LinkColumn? ==> o[l].Null? || o[l].Object?
  {
    match b
    case Compare(_, _) =>
    case Neg(x) => ConformingValues(x, o);
    case Conj(x, y) => ConformingValues(x, o); ConformingValues(y, o);
    case Disj(x, y) => ConformingValues(x, o); ConformingValues(y, o);
  }

  lemma {:induction false} ShownIsCarried(db: Database, k: Key, b: Body, o: Object, n: nat)
    requires Conforms(o, b) && forall j: nat :: j < n ==> j in db
    requires forall c :: c in Conds(b) && c.rhs.Object? ==> c.rhs.key < n
    requires forall l :: l in Locations(b) ==> l in o && Follow(db, k, l.path).At? && Read(db, k, l) == Some(o[l])
    ensures Carries(db, k, b) && Navigable(db, k, b)
  {
    match b
    case Compare(path, t) =>
      assert LocationAt(path, t) in Locations(b) && Meaning(path, t) in Conds(b);
    case Neg(x) => ShownIsCarried(db, k, x, o, n);
    case Conj(x, y) => ShownIsCarried(db, k, x, o, n); ShownIsCarried(db, k, y, o, n);
    case Disj(x, y) => ShownIsCarried(db, k, x, o, n); ShownIsCarried(db, k, y, o, n);
  }
}
