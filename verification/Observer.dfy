/** Object change observers: the callback wrapper that core calls before and after each
    transaction, and the schema lookup it reads property values through. */
module Observer {
  import opened Options

  /** A declared property; `collection` covers arrays, sets and dictionaries. */
  datatype Property = Property(name: string, column: nat, collection: bool)

  /** The variant handed to observers: a value, or `std::monostate`. */
  datatype Variant = Monostate | Holds(v: int)

  /** Core's change set, as far as the wrapper looks at it. */
  datatype ChangeSet = ChangeSet(empty: bool, deletions: bool, columns: set<nat>)

  datatype PropertyChange = PropertyChange(name: string, oldValue: Option<Variant>, newValue: Option<Variant>)

  /** One call of the user's block. */
  datatype Notice = Deleted | Failed | Changed(changes: seq<PropertyChange>)

  predicate ValidSchema(props: seq<Property>) {
    |props| > 0 && forall i, j :: 0 <= i < j < |props| ==> props[i].name != props[j].name
  }

  // ----- property lookup -----

  /** `property_value_for_name` with collections excluded, from property `n` on. */
  function ValueFor(props: seq<Property>, live: seq<int>, name: string, n: nat): Variant
    requires n < |props| == |live|
    decreases |props| - n
  {
    if props[n].collection then Monostate
    else if props[n].name == name then Holds(live[n])
    else if n + 1 == |props| then Monostate
    else ValueFor(props, live, name, n + 1)
  }

  /** No declared property up to and including `i` is a collection. */
  predicate Visible(props: seq<Property>, i: nat)
    requires i < |props|
  {
    forall j :: 0 <= j <= i ==> !props[j].collection
  }

  function Told(props: seq<Property>, live: seq<int>, i: nat): Variant
    requires i < |props| == |live|
  {
    if Visible(props, i) then Holds(live[i]) else Monostate
  }

  /** Looking a property up by name gives its live value exactly when it is visible. */
  lemma {:induction false} LookupIsExact(props: seq<Property>, live: seq<int>, i: nat, n: nat)
    requires ValidSchema(props) && n <= i < |props| == |live|
    requires forall j :: 0 <= j < n ==> !props[j].collection
    ensures ValueFor(props, live, props[i].name, n) == Told(props, live, i)
    decreases i - n
  {
    if !props[n].collection && n < i {
      LookupIsExact(props, live, i, n + 1);
    }
  }

  /** A name that is not declared reads as empty. */
  lemma {:induction false} UnknownIsEmpty(props: seq<Property>, live: seq<int>, name: string, n: nat)
    requires n < |props| == |live|
    requires forall i :: 0 <= i < |props| ==> props[i].name != name
    ensures ValueFor(props, live, name, n) == Monostate
    decreases |props| - n
  {
    if n + 1 < |props| {
      UnknownIsEmpty(props, live, name, n + 1);
    }
  }

  // ----- which properties changed -----

  /** Positions below `n` of the properties whose column changed. */
  function ChangedBelow(props: seq<Property>, columns: set<nat>, n: nat): seq<nat>
    requires n <= |props|
  {
    if n == 0 then []
    else ChangedBelow(props, columns, n - 1) + (if props[n - 1].column in columns then [n - 1] else [])
  }

  predicate Ascending(at: seq<nat>, n: nat) {
    && (forall k :: 0 <= k < |at| ==> at[k] < n)
    && (forall j, k :: 0 <= j < k < |at| ==> at[j] < at[k])
  }

  /** The changed properties, all of them, in schema order and without repeats. */
  lemma {:induction false} ChangedInOrder(props: seq<Property>, columns: set<nat>, n: nat)
    requires n <= |props|
    ensures Ascending(ChangedBelow(props, columns, n), n)
    ensures forall i: nat :: i in ChangedBelow(props, columns, n) <==> i < n && props[i].column in columns
  {
    if n > 0 {
      ChangedInOrder(props, columns, n - 1);
      var before, at := ChangedBelow(props, columns, n - 1), ChangedBelow(props, columns, n);
      assert forall k :: 0 <= k < |before| ==> at[k] == before[k];
    }
  }

  function Positions(props: seq<Property>, columns: set<nat>): (r: seq<nat>)
    ensures Ascending(r, |props|)
  {
    ChangedInOrder(props, columns, |props|);
    ChangedBelow(props, columns, |props|)
  }

  function NamesAt(props: seq<Property>, at: seq<nat>): seq<string>
    requires Ascending(at, |props|)
  {
    seq(|at|, k requires 0 <= k < |at| => props[at[k]].name)
  }

  /** The names `populate_properties` collects from the first `n` properties. */
  function NamesBelow(props: seq<Property>, columns: set<nat>, n: nat): seq<string>
    requires n <= |props|
  {
    if n == 0 then []
    else NamesBelow(props, columns, n - 1) + (if props[n - 1].column in columns then [props[n - 1].name] else [])
  }

  lemma {:induction false} NamesInOrder(props: seq<Property>, columns: set<nat>, n: nat)
    requires n <= |props|
    ensures Ascending(ChangedBelow(props, columns, n), |props|)
    ensures NamesBelow(props, columns, n) == NamesAt(props, ChangedBelow(props, columns, n))
  {
    ChangedInOrder(props, columns, n);
    if n > 0 {
      NamesInOrder(props, columns, n - 1);
      var before := ChangedBelow(props, columns, n - 1);
      if props[n - 1].column in columns {
        NamesOfAppend(props, before, n - 1);
      } else {
        assert before + [] == before && NamesAt(props, before) + [] == NamesAt(props, before);
      }
    }
  }

  lemma NamesOfAppend(props: seq<Property>, at: seq<nat>, i: nat)
    requires Ascending(at, |props|) && Ascending(at + [i], |props|) && i < |props|
    ensures NamesAt(props, at + [i]) == NamesAt(props, at) + [props[i].name]
  {
  }

  // ----- the state machine -----

  datatype State = State(names: Option<seq<string>>, oldValues: Option<seq<Variant>>, deleted: bool)

  function Populated(props: seq<Property>, s: State, c: ChangeSet): State {
    if s.names.Some? then s
    else if c.deletions then s.(deleted := true)
    else
      var names := NamesBelow(props, c.columns, |props|);
      if names == [] then s else s.(names := Some(names))
  }

  function Read(props: seq<Property>, live: seq<int>, s: State, c: ChangeSet): (State, Option<seq<Variant>>)
    requires 0 < |props| == |live|
  {
    if c.empty then (s, None)
    else
      var t := Populated(props, s, c);
      (t, if t.names.None? then None else Some(ValuesOf(props, live, t.names.value)))
  }

  function ValuesOf(props: seq<Property>, live: seq<int>, names: seq<string>): seq<Variant>
    requires 0 < |props| == |live|
  {
    seq(|names|, k requires 0 <= k < |names| => ValueFor(props, live, names[k], 0))
  }

  /** The property changes an observer is given; old and new values are used only when
      there are any, and then position by position. */
  function Forwarded(names: seq<string>, olds: seq<Variant>, news: seq<Variant>): seq<PropertyChange>
    requires (olds == [] || |olds| == |names|) && (news == [] || |news| == |names|)
  {
    seq(|names|, k requires 0 <= k < |names| =>
      PropertyChange(names[k], if olds == [] then None else Some(olds[k]), if news == [] then None else Some(news[k])))
  }

  /** Stored old values come with stored names of equal length. */
  predicate Aligned(s: State) {
    && (s.names.Some? ==> s.names.value != [])
    && (s.oldValues.Some? ==> s.names.Some? && |s.oldValues.value| == |s.names.value|)
  }

  function Stored(olds: Option<seq<Variant>>): seq<Variant> {
    if olds.Some? then olds.value else []
  }

  function AfterBefore(props: seq<Property>, live: seq<int>, s: State, c: ChangeSet): (t: State)
    requires Aligned(s) && 0 < |props| == |live|
    ensures Aligned(t) && (s.deleted ==> t.deleted)
  {
    var (t, values) := Read(props, live, s, c);
    t.(oldValues := values)
  }

  function AfterAfter(props: seq<Property>, live: seq<int>, s: State, c: ChangeSet): (r: (State, seq<Notice>))
    requires Aligned(s) && 0 < |props| == |live|
    ensures r.0.names == None && r.0.oldValues == None && (s.deleted ==> r.0.deleted)
    ensures |r.1| <= 1 && (r.1 == [Deleted] <==> r.0.deleted)
  {
    var (t, values) := Read(props, live, s, c);
    (State(None, None, t.deleted),
     if t.deleted then [Deleted]
     else if values.Some? then [Changed(Forwarded(t.names.value, Stored(t.oldValues), values.value))]
     else [])
  }

  /** A deletion is reported by `after` exactly when it was seen before, or the change set
      shows it and no names are stored: stored names make the wrapper overlook it. */
  lemma DeletionIsReported(props: seq<Property>, live: seq<int>, s: State, c: ChangeSet)
    requires Aligned(s) && 0 < |props| == |live|
    ensures AfterAfter(props, live, s, c).1 == [Deleted] <==> s.deleted || (!c.empty && c.deletions && s.names.None?)
  {
  }

  class ObjectChangeCallbackWrapper {
    const props: seq<Property>
    var names: Option<seq<string>>
    var oldValues: Option<seq<Variant>>
    var deleted: bool
    /** What the user's block has been called with. */
    var told: seq<Notice>

    ghost function View(): State
      reads this
    {
      State(names, oldValues, deleted)
    }

    constructor (props: seq<Property>)
      ensures this.props == props && View() == State(None, None, false) && told == []
    {
      this.props := props;
      names, oldValues, deleted, told := None, None, false, [];
    }

    method PopulateProperties(c: ChangeSet)
      modifies this`names, this`deleted
      ensures View() == Populated(props, old(View()), c)
    {
      if names.Some? { return; }
      if c.deletions {
        deleted := true;
        return;
      }
      if c.columns == {} {
        NothingIn(props, |props|);
        return;
      }
      var properties: seq<string> := [];
      for i := 0 to |props|
        invariant View() == old(View()) && properties == NamesBelow(props, c.columns, i)
      {
        if props[i].column in c.columns {
          properties := properties + [props[i].name];
        }
      }
      if properties != [] {
        names := Some(properties);
      }
    }

    method ReadValues(c: ChangeSet, live: seq<int>) returns (r: Option<seq<Variant>>)
      requires 0 < |props| == |live|
      modifies this`names, this`deleted
      ensures (View(), r) == Read(props, live, old(View()), c)
    {
      if c.empty { return None; }
      PopulateProperties(c);
      if names.None? { return None; }
      var values: seq<Variant> := [];
      for k := 0 to |names.value|
        invariant values == ValuesOf(props, live, names.value)[..k]
      {
        values := values + [ValueFor(props, live, names.value[k], 0)];
      }
      assert values == ValuesOf(props, live, names.value);
      return Some(values);
    }

    method Before(c: ChangeSet, live: seq<int>)
      requires Aligned(View()) && 0 < |props| == |live|
      modifies this
      ensures View() == AfterBefore(props, live, old(View()), c) && told == old(told)
    {
      oldValues := ReadValues(c, live);
    }

    method After(c: ChangeSet, live: seq<int>)
      requires Aligned(View()) && 0 < |props| == |live|
      modifies this
      ensures View() == AfterAfter(props, live, old(View()), c).0
      ensures told == old(told) + AfterAfter(props, live, old(View()), c).1
    {
      var newValues := ReadValues(c, live);
      if deleted {
        told := told + [Deleted];
      } else if newValues.Some? {
        ForwardChange(names.value, Stored(oldValues), newValues.value);
      } else {
        assert told + [] == told;
      }
      names := None;
      oldValues := None;
    }

    /** `forward_change` for a live object: every index it uses is in range. */
    method ForwardChange(propertyNames: seq<string>, olds: seq<Variant>, news: seq<Variant>)
      requires (olds == [] || |olds| == |propertyNames|) && (news == [] || |news| == |propertyNames|)
      modifies this`told
      ensures told == old(told) + [Changed(Forwarded(propertyNames, olds, news))]
    {
      var changes: seq<PropertyChange> := [];
      for i := 0 to |propertyNames|
        invariant changes == Forwarded(propertyNames, olds, news)[..i]
      {
        var property := PropertyChange(propertyNames[i], None, None);
        if olds != [] {
          property := property.(oldValue := Some(olds[i]));
        }
        if news != [] {
          property := property.(newValue := Some(news[i]));
        }
        changes := changes + [property];
      }
      assert changes == Forwarded(propertyNames, olds, news);
      told := told + [Changed(changes)];
    }

    /** `error`: forwarded without touching the state. */
    method Error()
      modifies this`told
      ensures told == old(told) + [Failed]
    {
      told := told + [Failed];
    }
  }

  lemma {:induction false} NothingIn(props: seq<Property>, n: nat)
    requires n <= |props|
    ensures NamesBelow(props, {}, n) == []
  {
    if n > 0 {
      NothingIn(props, n - 1);
    }
  }

  // ----- every sequence of calls -----

  /** A call core makes; `live` holds the values of the row at that moment. */
  datatype Call = BeforeCall(c: ChangeSet, live: seq<int>) | AfterCall(c: ChangeSet, live: seq<int>) | ErrorCall

  predicate Fits(props: seq<Property>, call: Call) {
    |props| > 0 && (!call.ErrorCall? ==> |call.live| == |props|)
  }

  predicate AllFit(props: seq<Property>, calls: seq<Call>) {
    forall k :: 0 <= k < |calls| ==> Fits(props, calls[k])
  }

  function Step(props: seq<Property>, s: State, call: Call): (r: (State, seq<Notice>))
    requires Aligned(s) && Fits(props, call)
    ensures Aligned(r.0)
  {
    match call
    case BeforeCall(c, live) => (AfterBefore(props, live, s, c), [])
    case AfterCall(c, live) => AfterAfter(props, live, s, c)
    case ErrorCall => (s, [Failed])
  }

  function Run(props: seq<Property>, s: State, calls: seq<Call>): (State, seq<Notice>)
    requires Aligned(s) && AllFit(props, calls)
    decreases |calls|
  {
    if calls == [] then (s, [])
    else
      var (t, said) := Step(props, s, calls[0]);
      var (u, rest) := Run(props, t, calls[1..]);
      (u, said + rest)
  }

  /** The calls that are not a `before`. */
  function Speaking(calls: seq<Call>): nat {
    if calls == [] then 0 else (if calls[0].BeforeCall? then 0 else 1) + Speaking(calls[1..])
  }

  predicate NotEmpty(notice: Notice) {
    notice.Changed? ==> notice.changes != []
  }

  /** Whatever core calls, in whatever order: the stored vectors stay aligned, and the
      block runs at most once for each `after` or `error`, never with an empty change. */
  lemma {:induction false} EveryRunStaysAligned(props: seq<Property>, s: State, calls: seq<Call>)
    requires Aligned(s) && AllFit(props, calls)
    ensures Aligned(Run(props, s, calls).0)
    ensures |Run(props, s, calls).1| <= Speaking(calls)
    ensures forall k :: 0 <= k < |Run(props, s, calls).1| ==> NotEmpty(Run(props, s, calls).1[k])
    decreases |calls|
  {
    if calls != [] {
      EveryRunStaysAligned(props, Step(props, s, calls[0]).0, calls[1..]);
    }
  }

  /** How a deletion can be overlooked: a `before` with one change set and an `after` with
      another that shows the deletion. It is missed exactly when the first one names some
      changed property, and observers are then told of a change. */
  lemma OverlookedDeletion(props: seq<Property>, c: ChangeSet, d: ChangeSet, was: seq<int>, now: seq<int>)
    requires |was| == |props| == |now| > 0 && !d.empty && d.deletions
    ensures var calls := [BeforeCall(c, was), AfterCall(d, now)];
      && AllFit(props, calls)
      && (Run(props, State(None, None, false), calls).1 != [Deleted]
          <==> !c.empty && !c.deletions && exists i :: 0 <= i < |props| && props[i].column in c.columns)
      && (Run(props, State(None, None, false), calls).1 == [Deleted]
          || exists changes :: Run(props, State(None, None, false), calls).1 == [Changed(changes)])
  {
    var calls := [BeforeCall(c, was), AfterCall(d, now)];
    var m := AfterBefore(props, was, State(None, None, false), c);
    var (u, said) := AfterAfter(props, now, m, d);
    assert calls[1..] == [AfterCall(d, now)] && calls[1..][1..] == [];
    assert Run(props, m, calls[1..]).1 == said + [] == said;
    assert Run(props, State(None, None, false), calls).1 == [] + said == said;
    NamesInOrder(props, c.columns, |props|);
    ChangedInOrder(props, c.columns, |props|);
    var at := ChangedBelow(props, c.columns, |props|);
    assert |NamesBelow(props, c.columns, |props|)| == |at|;
    if at != [] {
      assert at[0] in at;
    }
  }

  /** What a wrapper that has seen a deletion says: nothing but that, at every `after`. */
  function Obituary(calls: seq<Call>): seq<Notice> {
    if calls == [] then []
    else (match calls[0] case BeforeCall(_, _) => [] case AfterCall(_, _) => [Deleted] case ErrorCall => [Failed])
         + Obituary(calls[1..])
  }

  lemma {:induction false} DeletionIsFinal(props: seq<Property>, s: State, calls: seq<Call>)
    requires Aligned(s) && s.deleted && AllFit(props, calls)
    ensures Run(props, s, calls).0.deleted && Run(props, s, calls).1 == Obituary(calls)
    decreases |calls|
  {
    if calls != [] {
      DeletionIsFinal(props, Step(props, s, calls[0]).0, calls[1..]);
    }
  }

  // ----- transactions -----

  /** A transaction as core reports it: one change set, and the row before and after. */
  datatype Transaction = Transaction(c: ChangeSet, was: seq<int>, now: seq<int>)

  function Calls(ts: seq<Transaction>): seq<Call> {
    if ts == [] then [] else [BeforeCall(ts[0].c, ts[0].was), AfterCall(ts[0].c, ts[0].now)] + Calls(ts[1..])
  }

  predicate TransactionsFit(props: seq<Property>, ts: seq<Transaction>) {
    |props| > 0 && forall k :: 0 <= k < |ts| ==> |ts[k].was| == |props| == |ts[k].now|
  }

  /** What should be said of a transaction on an object that exists: for each changed
      property, in schema order, its name and its value before and after. */
  function Report(props: seq<Property>, t: Transaction): seq<PropertyChange>
    requires |t.was| == |props| == |t.now|
  {
    var at := Positions(props, t.c.columns);
    seq(|at|, k requires 0 <= k < |at| =>
      PropertyChange(props[at[k]].name, Some(Told(props, t.was, at[k])), Some(Told(props, t.now, at[k]))))
  }

  /** What observers should be told, transaction by transaction; no state but whether the
      object is gone. */
  function Expected(props: seq<Property>, gone: bool, ts: seq<Transaction>): seq<Notice>
    requires TransactionsFit(props, ts)
    decreases |ts|
  {
    if ts == [] then []
    else
      var goneNow := gone || (!ts[0].c.empty && ts[0].c.deletions);
      (if goneNow then [Deleted]
       else if ts[0].c.empty || Report(props, ts[0]) == [] then []
       else [Changed(Report(props, ts[0]))])
      + Expected(props, goneNow, ts[1..])
  }

  lemma CallsFit(props: seq<Property>, ts: seq<Transaction>)
    requires TransactionsFit(props, ts)
    ensures AllFit(props, Calls(ts))
  {
  }

  /** Over any sequence of transactions the wrapper tells observers exactly that. */
  lemma {:induction false} ObserversAreTold(props: seq<Property>, gone: bool, ts: seq<Transaction>)
    requires ValidSchema(props) && TransactionsFit(props, ts)
    ensures AllFit(props, Calls(ts))
    ensures Run(props, State(None, None, gone), Calls(ts)).1 == Expected(props, gone, ts)
    decreases |ts|
  {
    CallsFit(props, ts);
    if ts != [] {
      OneTransaction(props, gone, ts[0]);
      var goneNow := gone || (!ts[0].c.empty && ts[0].c.deletions);
      ObserversAreTold(props, goneNow, ts[1..]);
      TwoCalls(props, State(None, None, gone), ts);
    }
  }

  lemma TwoCalls(props: seq<Property>, s: State, ts: seq<Transaction>)
    requires Aligned(s) && TransactionsFit(props, ts) && ts != []
    requires AllFit(props, Calls(ts))
    ensures var m := AfterBefore(props, ts[0].was, s, ts[0].c);
      var (u, said) := AfterAfter(props, ts[0].now, m, ts[0].c);
      AllFit(props, Calls(ts[1..]))
      && Run(props, s, Calls(ts)).1 == said + Run(props, u, Calls(ts[1..])).1
  {
    var calls := Calls(ts);
    CallsFit(props, ts[1..]);
    assert calls[1..][0] == AfterCall(ts[0].c, ts[0].now) && calls[1..][1..] == Calls(ts[1..]);
    assert calls[0] == BeforeCall(ts[0].c, ts[0].was);
    var m := AfterBefore(props, ts[0].was, s, ts[0].c);
    assert Run(props, s, calls).1 == [] + Run(props, m, calls[1..]).1;
  }

  lemma OneTransaction(props: seq<Property>, gone: bool, t: Transaction)
    requires ValidSchema(props) && |t.was| == |props| == |t.now|
    ensures var m := AfterBefore(props, t.was, State(None, None, gone), t.c);
      var goneNow := gone || (!t.c.empty && t.c.deletions);
      AfterAfter(props, t.now, m, t.c) == (State(None, None, goneNow),
        if goneNow then [Deleted]
        else if t.c.empty || Report(props, t) == [] then []
        else [Changed(Report(props, t))])
  {
    var names := NamesBelow(props, t.c.columns, |props|);
    NamesInOrder(props, t.c.columns, |props|);
    ValuesAreTold(props, t.was, t.c.columns);
    ValuesAreTold(props, t.now, t.c.columns);
    if names != [] {
      assert Forwarded(names, ValuesOf(props, t.was, names), ValuesOf(props, t.now, names)) == Report(props, t);
    }
  }

  lemma ValuesAreTold(props: seq<Property>, live: seq<int>, columns: set<nat>)
    requires ValidSchema(props) && |live| == |props|
    ensures var at := Positions(props, columns);
      ValuesOf(props, live, NamesAt(props, at)) == seq(|at|, k requires 0 <= k < |at| => Told(props, live, at[k]))
  {
    var at := Positions(props, columns);
    forall k | 0 <= k < |at| ensures ValueFor(props, live, props[at[k]].name, 0) == Told(props, live, at[k]) {
      LookupIsExact(props, live, at[k], 0);
    }
  }

  // ----- any calls at all -----

  /** One look at the row: what a `before` or an `after` is called with. */
  datatype Look = Look(c: ChangeSet, live: seq<int>)

  /** The change set names a property. */
  predicate Naming(props: seq<Property>, c: ChangeSet) {
    !c.empty && !c.deletions && exists i :: 0 <= i < |props| && props[i].column in c.columns
  }

  /** The first look that names a property. */
  function FirstNaming(props: seq<Property>, looks: seq<Look>): (f: Option<nat>)
    ensures f.Some? ==> f.value < |looks| && Naming(props, looks[f.value].c)
    ensures forall i :: 0 <= i < (if f.Some? then f.value else |looks|) ==> !Naming(props, looks[i].c)
  {
    if looks == [] then None
    else
      var f := FirstNaming(props, looks[..|looks| - 1]);
      if f.Some? then f else if Naming(props, looks[|looks| - 1].c) then Some(|looks| - 1) else None
  }

  /** A look shows a deletion, and none before it names a property. */
  predicate SeesDeletion(props: seq<Property>, looks: seq<Look>) {
    exists j :: 0 <= j < |looks| && ShowsDeletion(props, looks, j)
  }

  predicate ShowsDeletion(props: seq<Property>, looks: seq<Look>, j: nat)
    requires j < |looks|
  {
    && !looks[j].c.empty && looks[j].c.deletions
    && forall i :: 0 <= i < j ==> !Naming(props, looks[i].c)
  }

  predicate LooksFit(props: seq<Property>, looks: seq<Look>) {
    forall i :: 0 <= i < |looks| ==> |looks[i].live| == |props|
  }

  function AllTold(props: seq<Property>, live: seq<int>, at: seq<nat>): seq<Variant>
    requires |live| == |props| && Ascending(at, |props|)
  {
    seq(|at|, k requires 0 <= k < |at| => Told(props, live, at[k]))
  }

  /** What an `after` says when `looks` are the `before`s since the previous `after`: the
      properties named by the first look that names any, with their values at this look and
      at the last `before`, unless that `before` was empty or came before the naming. */
  function Said(props: seq<Property>, gone: bool, looks: seq<Look>, now: Look): seq<Notice>
    requires LooksFit(props, looks + [now])
  {
    var all := looks + [now];
    var f := FirstNaming(props, all);
    if gone || SeesDeletion(props, all) then [Deleted]
    else if now.c.empty || f.None? then []
    else
      var at := Positions(props, all[f.value].c.columns);
      var was := if looks != [] && !looks[|looks| - 1].c.empty && FirstNaming(props, looks).Some?
                 then Some(looks[|looks| - 1].live) else None;
      assert was.Some? ==> LooksFit(props, looks + [now]) && (looks + [now])[|looks| - 1] == looks[|looks| - 1];
      assert |now.live| == |props| by { assert all[|looks|] == now; }
      [Changed(Changes(props, at, was, now.live))]
  }

  /** The properties at these positions, with their values now and, if it was looked at, before. */
  function Changes(props: seq<Property>, at: seq<nat>, was: Option<seq<int>>, now: seq<int>): seq<PropertyChange>
    requires Ascending(at, |props|) && |now| == |props| && (was.Some? ==> |was.value| == |props|)
  {
    seq(|at|, k requires 0 <= k < |at| =>
      PropertyChange(props[at[k]].name, if was.Some? then Some(Told(props, was.value, at[k])) else None,
        Some(Told(props, now, at[k]))))
  }

  lemma ChangesForwarded(props: seq<Property>, at: seq<nat>, was: Option<seq<int>>, now: seq<int>)
    requires Ascending(at, |props|) && |now| == |props| && (was.Some? ==> |was.value| == |props|) && at != []
    ensures Forwarded(NamesAt(props, at), if was.Some? then AllTold(props, was.value, at) else [], AllTold(props, now, at))
            == Changes(props, at, was, now)
  {
  }

  /** What observers should be told in answer to any calls, without the wrapper's state. */
  function Description(props: seq<Property>, gone: bool, looks: seq<Look>, calls: seq<Call>): seq<Notice>
    requires LooksFit(props, looks) && AllFit(props, calls)
    decreases |calls|
  {
    if calls == [] then []
    else
      match calls[0]
      case BeforeCall(c, live) => Description(props, gone, looks + [Look(c, live)], calls[1..])
      case AfterCall(c, live) =>
        Said(props, gone, looks, Look(c, live))
        + Description(props, gone || SeesDeletion(props, looks + [Look(c, live)]), [], calls[1..])
      case ErrorCall => [Failed] + Description(props, gone, looks, calls[1..])
  }

  /** What the wrapper's state says of the looks since the last `after`. */
  predicate Remembers(props: seq<Property>, s: State, gone: bool, looks: seq<Look>)
    requires LooksFit(props, looks)
  {
    var f := FirstNaming(props, looks);
    && s.deleted == (gone || SeesDeletion(props, looks))
    && s.names == (if f.None? then None else Some(NamesAt(props, Positions(props, looks[f.value].c.columns))))
    && s.oldValues == (if looks == [] || looks[|looks| - 1].c.empty || f.None? then None
                       else Some(AllTold(props, looks[|looks| - 1].live, Positions(props, looks[f.value].c.columns))))
  }

  lemma OneMoreLook(props: seq<Property>, looks: seq<Look>, now: Look)
    ensures var f, g := FirstNaming(props, looks), FirstNaming(props, looks + [now]);
      g == if f.Some? then f else if Naming(props, now.c) then Some(|looks|) else None
    ensures SeesDeletion(props, looks + [now])
            <==> SeesDeletion(props, looks) || (!now.c.empty && now.c.deletions && FirstNaming(props, looks).None?)
  {
    var all := looks + [now];
    assert all[..|looks|] == looks;
    var f := FirstNaming(props, looks);
    if f.Some? {
      assert Naming(props, all[f.value].c);
    }
    if SeesDeletion(props, looks) {
      var j :| 0 <= j < |looks| && ShowsDeletion(props, looks, j);
      assert ShowsDeletion(props, all, j);
    }
    if SeesDeletion(props, all) {
      var j :| 0 <= j < |all| && ShowsDeletion(props, all, j);
      if j < |looks| {
        assert ShowsDeletion(props, looks, j);
      }
    }
    if !now.c.empty && now.c.deletions && FirstNaming(props, looks).None? {
      assert ShowsDeletion(props, all, |looks|);
    }
  }

  /** A change set names a property exactly if it gives names to store. */
  lemma NamesOfLook(props: seq<Property>, c: ChangeSet)
    ensures NamesBelow(props, c.columns, |props|) == NamesAt(props, Positions(props, c.columns))
    ensures !c.empty && !c.deletions ==> (Naming(props, c) <==> Positions(props, c.columns) != [])
  {
    NamesInOrder(props, c.columns, |props|);
    ChangedInOrder(props, c.columns, |props|);
    if Positions(props, c.columns) != [] {
      assert Positions(props, c.columns)[0] in Positions(props, c.columns);
    }
  }

  /** What reading a look gives: the state and the values, in terms of the looks so far. */
  lemma ReadLook(props: seq<Property>, s: State, gone: bool, looks: seq<Look>, now: Look)
    requires ValidSchema(props) && LooksFit(props, looks) && |now.live| == |props| && Remembers(props, s, gone, looks)
    ensures LooksFit(props, looks + [now])
    ensures var (t, values) := Read(props, now.live, s, now.c);
      var f := FirstNaming(props, looks + [now]);
      && t.deleted == (gone || SeesDeletion(props, looks + [now])) && t.oldValues == s.oldValues
      && t.names == (if f.None? then None else Some(NamesAt(props, Positions(props, (looks + [now])[f.value].c.columns))))
      && values == (if now.c.empty || f.None? then None
                    else Some(AllTold(props, now.live, Positions(props, (looks + [now])[f.value].c.columns))))
  {
    OneMoreLook(props, looks, now);
    NamesOfLook(props, now.c);
    var f := FirstNaming(props, looks + [now]);
    if f.Some? {
      ValuesAreTold(props, now.live, (looks + [now])[f.value].c.columns);
    }
  }

  lemma LookRemembered(props: seq<Property>, s: State, gone: bool, looks: seq<Look>, now: Look)
    requires ValidSchema(props) && LooksFit(props, looks) && |now.live| == |props| && Remembers(props, s, gone, looks)
    requires Aligned(s)
    ensures LooksFit(props, looks + [now]) && Remembers(props, AfterBefore(props, now.live, s, now.c), gone, looks + [now])
  {
    ReadLook(props, s, gone, looks, now);
  }

  lemma AfterSays(props: seq<Property>, s: State, gone: bool, looks: seq<Look>, now: Look)
    requires ValidSchema(props) && LooksFit(props, looks) && |now.live| == |props| && Remembers(props, s, gone, looks)
    requires Aligned(s)
    ensures LooksFit(props, looks + [now])
    ensures AfterAfter(props, now.live, s, now.c)
            == (State(None, None, gone || SeesDeletion(props, looks + [now])), Said(props, gone, looks, now))
  {
    ReadLook(props, s, gone, looks, now);
    OneMoreLook(props, looks, now);
    var all := looks + [now];
    var f := FirstNaming(props, all);
    if f.Some? {
      var c := all[f.value].c;
      NamesOfLook(props, c);
      var was := if looks != [] && !looks[|looks| - 1].c.empty && FirstNaming(props, looks).Some?
                 then Some(looks[|looks| - 1].live) else None;
      ChangesForwarded(props, Positions(props, c.columns), was, now.live);
    }
  }

  /** Over any calls whatever, with any change sets, the wrapper says exactly that. */
  lemma {:induction false} AnyCallsAreTold(props: seq<Property>, s: State, gone: bool, looks: seq<Look>, calls: seq<Call>)
    requires ValidSchema(props) && LooksFit(props, looks) && AllFit(props, calls)
    requires Aligned(s) && Remembers(props, s, gone, looks)
    ensures Run(props, s, calls).1 == Description(props, gone, looks, calls)
    decreases |calls|
  {
    if calls != [] {
      assert Fits(props, calls[0]);
      match calls[0]
      case BeforeCall(c, live) =>
        LookRemembered(props, s, gone, looks, Look(c, live));
        AnyCallsAreTold(props, AfterBefore(props, live, s, c), gone, looks + [Look(c, live)], calls[1..]);
      case AfterCall(c, live) =>
        AfterSays(props, s, gone, looks, Look(c, live));
        AnyCallsAreTold(props, AfterAfter(props, live, s, c).0, gone || SeesDeletion(props, looks + [Look(c, live)]), [],
          calls[1..]);
      case ErrorCall =>
        AnyCallsAreTold(props, s, gone, looks, calls[1..]);
    }
  }

  /** In particular from the start. */
  lemma WrapperIsDescribed(props: seq<Property>, calls: seq<Call>)
    requires ValidSchema(props) && AllFit(props, calls)
    ensures Run(props, State(None, None, false), calls).1 == Description(props, false, [], calls)
  {
    AnyCallsAreTold(props, State(None, None, false), false, [], calls);
  }
}
