/** Generated `managed<cls>` objects, whose inner properties hold raw pointers into the
    enclosing object and are re-pointed on every copy, move and assignment. */
module Ownership {
  import opened Options

  import Bridge

  type Builder = nat

  /** A row handle and a realm, reduced to the column keys their table gives the properties. */
  datatype Handle = Handle(id: nat, columns: seq<Bridge.ColKey>)

  /** Where an inner pointer leads, seen from the enclosing object. */
  datatype Pointer = Null | Own | Foreign

  datatype Property = Property(obj: Pointer, realm: Pointer, key: Bridge.ColKey, query: Option<Builder>)

  datatype Instance = Instance(row: Option<Handle>, realm: Option<Handle>, query: Option<Builder>, props: seq<Property>)

  const BLANK := Property(Null, Null, 0, None)

  predicate HandleFits(h: Option<Handle>, n: nat) {
    h.Some? ==> |h.value.columns| == n
  }

  predicate Fits(m: Instance, n: nat) {
    |m.props| == n && HandleFits(m.row, n) && HandleFits(m.realm, n)
  }

  /** The property points to its own enclosing row and realm, or to null where there is
      none yet, under the column key of its own table. */
  predicate AtHome(m: Instance, i: nat)
    requires i < |m.props| && Fits(m, |m.props|)
  {
    var p := m.props[i];
    && p.obj != Foreign && p.realm != Foreign
    && (m.realm.Some? ==> p.realm == Own)
    && (m.query.None? && m.row.Some? ==> p.obj == Own && p.key == m.row.value.columns[i])
    && (m.query.Some? && m.realm.Some? ==> p.key == m.realm.value.columns[i])
  }

  predicate AllAtHome(m: Instance)
    requires Fits(m, |m.props|)
  {
    forall i :: 0 <= i < |m.props| ==> AtHome(m, i)
  }

  /** Every property is at home and shares the enclosing query builder. */
  predicate SelfPointing(m: Instance)
    requires Fits(m, |m.props|)
  {
    AllAtHome(m) && forall i :: 0 <= i < |m.props| ==> m.props[i].query == m.query
  }

  // ----- what the constructors and assignments compute -----

  /** A source that can be copied: its table can be looked up. */
  predicate Usable(m: Instance) {
    if m.query.Some? then m.realm.Some? else m.row.Some?
  }

  /** Every property prepared for the query, if there is one, and otherwise assigned to the
      row. Assigning leaves the builder of a property alone, preparing leaves its row. */
  function Refreshed(m: Instance): Instance
    requires Fits(m, |m.props|) && Usable(m)
  {
    m.(props := seq(|m.props|, i requires 0 <= i < |m.props| =>
      if m.query.Some? then m.props[i].(realm := Own, key := m.realm.value.columns[i], query := m.query)
      else m.props[i].(obj := Own, realm := Own, key := m.row.value.columns[i])))
  }

  function Blank(n: nat): Instance {
    Instance(None, None, None, seq(n, i => BLANK))
  }

  function AssignedFrom(m: Instance, source: Instance): Instance
    requires Fits(m, |source.props|) && Fits(source, |source.props|) && Usable(source)
  {
    Refreshed(Instance(source.row, source.realm, source.query, m.props))
  }

  /** What moving leaves behind. The realm is a shared pointer in both builds and is gone;
      the row is one in the first build only. The query builder is a raw pointer and stays. */
  function MovedOut(build: Bridge.Build, m: Instance): Instance {
    if build == Bridge.SharedCell then m.(row := None, realm := None) else m.(realm := None)
  }

  // ----- every sequence of operations -----

  datatype Op =
    | Empty
    | FromRow(row: Handle, realm: Handle)
    | ForQuery(realm: Handle, builder: Builder)
    | Copy(from: nat)
    | Move(from: nat)
    | Assign(to: nat, from: nat)
    | MoveAssign(to: nat, from: nat)

  predicate CanDo(n: nat, pool: seq<Instance>, op: Op) {
    match op
    case Empty => true
    case FromRow(row, realm) => |row.columns| == n && |realm.columns| == n
    case ForQuery(realm, _) => |realm.columns| == n
    case Copy(j) => j < |pool| && Usable(pool[j])
    case Move(j) => j < |pool| && Usable(pool[j])
    case Assign(i, j) => i < |pool| && j < |pool| && Usable(pool[j])
    case MoveAssign(i, j) => i < |pool| && j < |pool| && Usable(pool[j])
  }

  predicate AllFit(n: nat, pool: seq<Instance>) {
    forall k :: 0 <= k < |pool| ==> Fits(pool[k], n)
  }

  function Step(build: Bridge.Build, n: nat, pool: seq<Instance>, op: Op): (r: seq<Instance>)
    requires AllFit(n, pool) && CanDo(n, pool, op)
    ensures AllFit(n, r)
  {
    match op
    case Empty => pool + [Blank(n)]
    case FromRow(row, realm) => pool + [Refreshed(Blank(n).(row := Some(row), realm := Some(realm)))]
    case ForQuery(realm, builder) => pool + [Refreshed(Blank(n).(realm := Some(realm), query := Some(builder)))]
    case Copy(j) => pool + [AssignedFrom(Blank(n), pool[j])]
    case Move(j) => pool[j := MovedOut(build, pool[j])] + [AssignedFrom(Blank(n), pool[j])]
    case Assign(i, j) => pool[i := AssignedFrom(pool[i], pool[j])]
    case MoveAssign(i, j) => pool[j := MovedOut(build, pool[j])][i := AssignedFrom(pool[i], pool[j])]
  }

  predicate Possible(build: Bridge.Build, n: nat, pool: seq<Instance>, ops: seq<Op>)
    requires AllFit(n, pool)
    decreases |ops|
  {
    ops == [] || (CanDo(n, pool, ops[0]) && Possible(build, n, Step(build, n, pool, ops[0]), ops[1..]))
  }

  function Run(build: Bridge.Build, n: nat, pool: seq<Instance>, ops: seq<Op>): (r: seq<Instance>)
    requires AllFit(n, pool) && Possible(build, n, pool, ops)
    ensures AllFit(n, r)
    decreases |ops|
  {
    if ops == [] then pool else Run(build, n, Step(build, n, pool, ops[0]), ops[1..])
  }

  /** Whether an object is in query mode, the builder of the last time it was, and whether
      it ever was in object mode. */
  datatype Mode = Mode(querying: bool, builder: Option<Builder>, attached: bool)

  const NEW := Mode(false, None, false)

  /** The mode after taking over from an object of another mode. */
  function Taking(mode: Mode, source: Mode): Mode {
    if source.querying then mode.(querying := true, builder := source.builder)
    else mode.(querying := false, attached := true)
  }

  predicate InRange(op: Op, size: nat) {
    match op
    case Copy(j) => j < size
    case Move(j) => j < size
    case Assign(i, j) => i < size && j < size
    case MoveAssign(i, j) => i < size && j < size
    case _ => true
  }

  function ModeStep(modes: seq<Mode>, op: Op): seq<Mode> {
    if !InRange(op, |modes|) then modes
    else match op
      case Empty => modes + [NEW]
      case FromRow(_, _) => modes + [Mode(false, None, true)]
      case ForQuery(_, builder) => modes + [Mode(true, Some(builder), false)]
      case Copy(j) => modes + [Taking(NEW, modes[j])]
      case Move(j) => modes + [Taking(NEW, modes[j])]
      case Assign(i, j) => modes[i := Taking(modes[i], modes[j])]
      case MoveAssign(i, j) => modes[i := Taking(modes[i], modes[j])]
  }

  function Modes(modes: seq<Mode>, ops: seq<Op>): seq<Mode>
    decreases |ops|
  {
    if ops == [] then modes else Modes(ModeStep(modes, ops[0]), ops[1..])
  }

  /** An object of this mode: at home, its properties with the builder of the last query,
      and with a row of their own exactly if it ever was in object mode. */
  predicate Matches(m: Instance, mode: Mode)
    requires Fits(m, |m.props|)
  {
    && AllAtHome(m)
    && (mode.querying ==> mode.builder.Some?) && m.query == (if mode.querying then mode.builder else None)
    && forall i :: 0 <= i < |m.props| ==>
         && m.props[i].query == mode.builder && m.props[i].obj == (if mode.attached then Own else Null)
         && m.props[i].realm == (if mode.attached || mode.builder.Some? then Own else Null)
  }

  predicate AllMatch(n: nat, pool: seq<Instance>, modes: seq<Mode>)
    requires AllFit(n, pool)
  {
    |pool| == |modes| && forall k :: 0 <= k < |pool| ==> Matches(pool[k], modes[k])
  }

  lemma AssignmentMatches(m: Instance, mode: Mode, source: Instance, other: Mode)
    requires Fits(m, |source.props|) && Fits(source, |source.props|) && Usable(source)
    requires Matches(m, mode) && Matches(source, other)
    ensures Matches(AssignedFrom(m, source), Taking(mode, other))
  {
    var r := AssignedFrom(m, source);
    forall i | 0 <= i < |r.props| ensures AtHome(r, i) {
      assert AtHome(m, i);
    }
  }

  lemma MovedOutMatches(build: Bridge.Build, m: Instance, mode: Mode)
    requires Fits(m, |m.props|) && Matches(m, mode)
    ensures Matches(MovedOut(build, m), mode)
  {
    forall i | 0 <= i < |m.props| ensures AtHome(MovedOut(build, m), i) {
      assert AtHome(m, i);
    }
  }

  lemma StepMatches(build: Bridge.Build, n: nat, pool: seq<Instance>, modes: seq<Mode>, op: Op)
    requires AllFit(n, pool) && CanDo(n, pool, op) && AllMatch(n, pool, modes)
    ensures AllMatch(n, Step(build, n, pool, op), ModeStep(modes, op))
  {
    match op
    case Copy(j) => AssignmentMatches(Blank(n), NEW, pool[j], modes[j]);
    case Move(j) =>
      AssignmentMatches(Blank(n), NEW, pool[j], modes[j]);
      MovedOutMatches(build, pool[j], modes[j]);
    case Assign(i, j) => AssignmentMatches(pool[i], modes[i], pool[j], modes[j]);
    case MoveAssign(i, j) =>
      AssignmentMatches(pool[i], modes[i], pool[j], modes[j]);
      MovedOutMatches(build, pool[j], modes[j]);
    case _ =>
  }

  lemma {:induction false} RunMatches(build: Bridge.Build, n: nat, pool: seq<Instance>, modes: seq<Mode>, ops: seq<Op>)
    requires AllFit(n, pool) && Possible(build, n, pool, ops) && AllMatch(n, pool, modes)
    ensures AllMatch(n, Run(build, n, pool, ops), Modes(modes, ops))
    decreases |ops|
  {
    if ops != [] {
      StepMatches(build, n, pool, modes, ops[0]);
      RunMatches(build, n, Step(build, n, pool, ops[0]), ModeStep(modes, ops[0]), ops[1..]);
    }
  }

  /** After any sequence of constructions, copies, moves and assignments no pointer leads
      into another object; the properties have a row exactly if the object ever was in
      object mode; and they share its builder exactly unless it was in query mode once and
      is in object mode now, when they keep the builder of that query. */
  lemma PointersStayHome(build: Bridge.Build, n: nat, ops: seq<Op>, k: nat)
    requires n > 0 && Possible(build, n, [], ops) && k < |Run(build, n, [], ops)|
    ensures |Modes([], ops)| == |Run(build, n, [], ops)| && AllAtHome(Run(build, n, [], ops)[k])
    ensures var m, mode := Run(build, n, [], ops)[k], Modes([], ops)[k];
      && (SelfPointing(m) <==> mode.querying || mode.builder == None)
      && forall i :: 0 <= i < n ==> m.props[i].query == mode.builder && (m.props[i].obj == Own <==> mode.attached)
  {
    RunMatches(build, n, [], [], ops);
    var m := Run(build, n, [], ops)[k];
    assert Matches(m, Modes([], ops)[k]) && m.props[0].query == Modes([], ops)[k].builder;
  }

  /** One assignment keeps the invariant exactly when it does not go from an object-mode
      source to a query-mode target. */
  lemma AssignmentIsExact(m: Instance, source: Instance)
    requires Fits(m, |source.props|) && Fits(source, |source.props|) && Usable(source)
    requires SelfPointing(m) && |m.props| > 0
    ensures SelfPointing(AssignedFrom(m, source)) <==> !(m.query.Some? && source.query.None?)
  {
    var r := AssignedFrom(m, source);
    forall i | 0 <= i < |r.props| ensures AtHome(r, i) {
      assert AtHome(m, i);
    }
    assert r.props[0].query == if source.query.Some? then source.query else m.props[0].query;
    assert forall i :: 0 <= i < |m.props| ==> m.props[i].query == m.query;
  }

  // ----- which row an object is of -----

  /** How the object was constructed that an object was last copied, moved or assigned from,
      at any remove. */
  datatype Origin = Nowhere | OfRow(row: Handle, realm: Handle) | OfQuery(realm: Handle, builder: Builder)

  /** `moved` if it has been moved out since, it or what it was copied from. */
  datatype Lineage = Lineage(origin: Origin, moved: bool)

  function LineageStep(ls: seq<Lineage>, op: Op): seq<Lineage> {
    if !InRange(op, |ls|) then ls
    else match op
      case Empty => ls + [Lineage(Nowhere, false)]
      case FromRow(row, realm) => ls + [Lineage(OfRow(row, realm), false)]
      case ForQuery(realm, builder) => ls + [Lineage(OfQuery(realm, builder), false)]
      case Copy(j) => ls + [ls[j]]
      case Move(j) => ls[j := ls[j].(moved := true)] + [ls[j]]
      case Assign(i, j) => ls[i := ls[j]]
      case MoveAssign(i, j) => ls[j := ls[j].(moved := true)][i := ls[j]]
  }

  function Lineages(ls: seq<Lineage>, ops: seq<Op>): seq<Lineage>
    decreases |ops|
  {
    if ops == [] then ls else Lineages(LineageStep(ls, ops[0]), ops[1..])
  }

  /** The object has the row, the realm and the builder of its origin. Once moved out it has
      no realm any more, and no row where that is shared. */
  predicate Descends(build: Bridge.Build, m: Instance, l: Lineage) {
    match l.origin
    case Nowhere => m.row == None && m.realm == None && m.query == None
    case OfRow(row, realm) =>
      && m.row == (if l.moved && build == Bridge.SharedCell then None else Some(row))
      && m.realm == (if l.moved then None else Some(realm)) && m.query == None
    case OfQuery(realm, builder) =>
      m.row == None && m.realm == (if l.moved then None else Some(realm)) && m.query == Some(builder)
  }

  predicate AllDescend(build: Bridge.Build, pool: seq<Instance>, ls: seq<Lineage>) {
    |pool| == |ls| && forall k :: 0 <= k < |pool| ==> Descends(build, pool[k], ls[k])
  }

  lemma StepDescends(build: Bridge.Build, n: nat, pool: seq<Instance>, ls: seq<Lineage>, op: Op)
    requires AllFit(n, pool) && CanDo(n, pool, op) && AllDescend(build, pool, ls)
    ensures AllDescend(build, Step(build, n, pool, op), LineageStep(ls, op))
  {
    match op
    case Copy(j) => assert Descends(build, pool[j], ls[j]);
    case Move(j) => assert Descends(build, pool[j], ls[j]);
    case Assign(_, j) => assert Descends(build, pool[j], ls[j]);
    case MoveAssign(_, j) => assert Descends(build, pool[j], ls[j]);
    case _ =>
  }

  lemma {:induction false} RunDescends(build: Bridge.Build, n: nat, pool: seq<Instance>, ls: seq<Lineage>, ops: seq<Op>)
    requires AllFit(n, pool) && Possible(build, n, pool, ops) && AllDescend(build, pool, ls)
    ensures AllDescend(build, Run(build, n, pool, ops), Lineages(ls, ops))
    decreases |ops|
  {
    if ops != [] {
      StepDescends(build, n, pool, ls, ops[0]);
      RunDescends(build, n, Step(build, n, pool, ops[0]), LineageStep(ls, ops[0]), ops[1..]);
    }
  }

  /** Over any sequence of constructions, copies, moves and assignments every object is of
      the row, realm and builder of the construction it descends from, and its properties
      carry the column keys these give. */
  lemma EveryObjectDescends(build: Bridge.Build, n: nat, ops: seq<Op>, k: nat)
    requires Possible(build, n, [], ops) && k < |Run(build, n, [], ops)|
    ensures |Lineages([], ops)| == |Run(build, n, [], ops)|
    ensures Descends(build, Run(build, n, [], ops)[k], Lineages([], ops)[k])
    ensures var m, l := Run(build, n, [], ops)[k], Lineages([], ops)[k];
      && (l.origin.OfRow? && m.row.Some? ==> forall i :: 0 <= i < n ==> m.props[i].key == l.origin.row.columns[i])
      && (l.origin.OfQuery? && m.realm.Some? ==> forall i :: 0 <= i < n ==>
           m.props[i].key == l.origin.realm.columns[i] && m.props[i].query == Some(l.origin.builder))
  {
    RunDescends(build, n, [], [], ops);
    RunMatches(build, n, [], [], ops);
    var m, l := Run(build, n, [], ops)[k], Lineages([], ops)[k];
    assert Matches(m, Modes([], ops)[k]) && Descends(build, m, l);
    forall i | 0 <= i < n
      ensures l.origin.OfRow? && m.row.Some? ==> m.props[i].key == l.origin.row.columns[i]
      ensures l.origin.OfQuery? && m.realm.Some? ==>
        m.props[i].key == l.origin.realm.columns[i] && m.props[i].query == Some(l.origin.builder)
    {
      assert AtHome(m, i);
    }
  }

  // ----- the objects themselves -----

  /** `managed_base`. */
  class ManagedProperty {
    var obj: Managed?
    var realm: Managed?
    var key: Bridge.ColKey
    var query: Option<Builder>

    constructor ()
      ensures obj == null && realm == null && key == 0 && query == None
    {
      obj, realm, key, query := null, null, 0, None;
    }

    method Assign(obj: Managed, realm: Managed, key: Bridge.ColKey)
      modifies this`obj, this`realm, this`key
      ensures this.obj == obj && this.realm == realm && this.key == key
    {
      this.obj, this.realm, this.key := obj, realm, key;
    }

    method PrepareForQuery(realm: Managed, key: Bridge.ColKey, query: Option<Builder>)
      modifies this`realm, this`key, this`query
      ensures this.realm == realm && this.key == key && this.query == query
    {
      this.realm, this.key, this.query := realm, key, query;
    }
  }

  method DefaultProperties(n: nat) returns (props: seq<ManagedProperty>)
    ensures |props| == n && Distinct(props) && fresh(props)
    ensures forall i :: 0 <= i < n ==>
      props[i].obj == null && props[i].realm == null && props[i].key == 0 && props[i].query == None
  {
    props := [];
    for k := 0 to n
      invariant |props| == k && Distinct(props) && fresh(props)
      invariant forall i :: 0 <= i < k ==>
        props[i].obj == null && props[i].realm == null && props[i].key == 0 && props[i].query == None
    {
      var p := new ManagedProperty();
      props := props + [p];
    }
  }

  ghost predicate Distinct(props: seq<ManagedProperty>) {
    forall i, j :: 0 <= i < j < |props| ==> props[i] != props[j]
  }

  /** `managed<cls>`: the row and the realm are members, and the properties point at them. */
  class Managed {
    var row: Option<Handle>
    var realm: Option<Handle>
    var query: Option<Builder>
    const props: seq<ManagedProperty>

    ghost predicate Valid()
      reads this
    {
      Distinct(props) && HandleFits(row, |props|) && HandleFits(realm, |props|)
    }

    function Seen(p: Managed?): Pointer {
      if p == null then Null else if p == this then Own else Foreign
    }

    ghost function PropertyView(i: nat): Property
      requires i < |props|
      reads props[i]
    {
      Property(Seen(props[i].obj), Seen(props[i].realm), props[i].key, props[i].query)
    }

    ghost function View(): (m: Instance)
      reads this, props
      ensures Valid() ==> Fits(m, |props|)
    {
      Instance(row, realm, query, seq(|props|, i requires 0 <= i < |props| reads props => PropertyView(i)))
    }

    /** The members of two objects are different objects. */
    ghost predicate Apart(other: Managed) {
      forall i, j :: 0 <= i < |props| && 0 <= j < |other.props| ==> props[i] != other.props[j]
    }

    /** The fold over all properties that ends every constructor and assignment. */
    method Refresh()
      requires Valid() && Usable(View())
      modifies props
      ensures View() == Refreshed(old(View()))
    {
      for i := 0 to |props|
        invariant forall j :: i <= j < |props| ==> PropertyView(j) == old(PropertyView(j))
        invariant forall j :: 0 <= j < i ==> PropertyView(j) == Refreshed(old(View())).props[j]
      {
        assert PropertyView(i) == old(View()).props[i];
        if query.Some? {
          props[i].PrepareForQuery(this, realm.value.columns[i], query);
        } else {
          props[i].Assign(this, this, row.value.columns[i]);
        }
      }
    }

    constructor Default(n: nat)
      ensures Valid() && View() == Blank(n) && |props| == n && fresh(props)
    {
      row, realm, query := None, None, None;
      var blanks := DefaultProperties(n);
      props := blanks;
    }

    constructor FromRow(row: Handle, realm: Handle)
      requires |row.columns| == |realm.columns|
      ensures Valid() && fresh(props)
      ensures View() == Refreshed(Blank(|row.columns|).(row := Some(row), realm := Some(realm)))
    {
      this.row, this.realm, query := Some(row), Some(realm), None;
      var blanks := DefaultProperties(|row.columns|);
      props := blanks;
      new;
      assert View() == Blank(|row.columns|).(row := Some(row), realm := Some(realm));
      Refresh();
    }

    constructor Copy(other: Managed)
      requires other.Valid() && Usable(other.View())
      ensures Valid() && fresh(props) && View() == AssignedFrom(Blank(|other.props|), other.View())
    {
      row, realm, query := other.row, other.realm, other.query;
      var blanks := DefaultProperties(|other.props|);
      props := blanks;
      new;
      assert View() == Instance(other.row, other.realm, other.query, Blank(|props|).props);
      Refresh();
    }

    constructor Move(build: Bridge.Build, other: Managed)
      requires other.Valid() && Usable(other.View())
      modifies other`row, other`realm
      ensures Valid() && fresh(props) && View() == AssignedFrom(Blank(|other.props|), old(other.View()))
      ensures other.Valid() && other.View() == MovedOut(build, old(other.View()))
    {
      row, realm, query := other.row, other.realm, other.query;
      var blanks := DefaultProperties(|other.props|);
      props := blanks;
      new;
      if build == Bridge.SharedCell {
        other.row := None;
      }
      other.realm := None;
      assert View() == Instance(row, realm, query, Blank(|props|).props);
      Refresh();
      assert other.View() == MovedOut(build, old(other.View()));
    }

    method Assign(other: Managed)
      requires Valid() && other.Valid() && |props| == |other.props| && Usable(other.View())
      requires this == other || Apart(other)
      modifies this, props
      ensures Valid() && View() == AssignedFrom(old(View()), old(other.View()))
      ensures this == other || other.View() == old(other.View())
    {
      row, realm, query := other.row, other.realm, other.query;
      assert View() == Instance(old(other.row), old(other.realm), old(other.query), old(View()).props);
      Refresh();
    }

    method MoveAssign(build: Bridge.Build, other: Managed)
      requires Valid() && other.Valid() && |props| == |other.props| && Usable(other.View())
      requires this == other || Apart(other)
      modifies this, props, other`row, other`realm
      ensures Valid() && View() == AssignedFrom(old(View()), old(other.View()))
      ensures this == other || (other.Valid() && other.View() == MovedOut(build, old(other.View())))
    {
      row, realm, query := other.row, other.realm, other.query;
      if this != other {
        if build == Bridge.SharedCell {
          other.row := None;
        }
        other.realm := None;
      }
      assert View() == Instance(row, realm, query, old(View()).props);
      Refresh();
      assert this == other || other.View() == MovedOut(build, old(other.View()));
    }

    /** `managed<cls>::prepare_for_query`. */
    static method ForQuery(realm: Handle, builder: Builder) returns (m: Managed)
      ensures fresh(m) && m.Valid() && fresh(m.props)
      ensures m.View() == Refreshed(Blank(|realm.columns|).(realm := Some(realm), query := Some(builder)))
    {
      m := new Managed.Default(|realm.columns|);
      ghost var blank := m.View();
      m.realm := Some(realm);
      m.query := Some(builder);
      assert m.View() == blank.(realm := Some(realm), query := Some(builder));
      m.Refresh();
    }
  }
}
