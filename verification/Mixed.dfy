/** The bridge's `mixed`: owned string and binary buffers beside a core value that only
    borrows the bytes of a string or binary. */
module Mixed {
  import opened Options

  import Bridge

  type Address = nat

  /** The types whose values core holds by itself. */
  datatype DataType =
    | IntType
    | BoolType
    | TimestampType
    | FloatType
    | DoubleType
    | DecimalType
    | ObjectIdType
    | TypedLinkType
    | UuidType

  datatype Value = Nothing | Text(s: string) | Bytes(b: seq<nat>) | Plain(kind: DataType, bits: int)

  /** Core's value: what it holds itself, or an address whose bytes belong to someone else. */
  datatype Core = NullCore | StringCore(at: Address) | BinaryCore(at: Address) | PlainCore(kind: DataType, bits: int)

  /** `core` is `None` once its shared pointer has been moved out. */
  datatype Instance = Instance(core: Option<Core>, ownedString: string, ownedData: seq<nat>)

  /** `operator Mixed`: strings and binaries are read from the owned buffers, so the result
      depends on no other memory. */
  function Converted(m: Instance): Value
    requires m.core.Some?
  {
    match m.core.value
    case NullCore => Nothing
    case StringCore(_) => Text(m.ownedString)
    case BinaryCore(_) => Bytes(m.ownedData)
    case PlainCore(kind, bits) => Plain(kind, bits)
  }

  /** A mixed built from a value whose bytes are at `at`. */
  function Fresh(v: Value, at: Address): Instance {
    match v
    case Nothing => Instance(Some(NullCore), [], [])
    case Text(s) => Instance(Some(StringCore(at)), s, [])
    case Bytes(b) => Instance(Some(BinaryCore(at)), [], b)
    case Plain(kind, bits) => Instance(Some(PlainCore(kind, bits)), [], [])
  }

  const UNSET := Instance(None, [], [])

  /** Copying over `m`: the buffer the source uses, and its core value. */
  function Copied(m: Instance, source: Instance): Instance
    requires source.core.Some?
  {
    match source.core.value
    case StringCore(_) => Instance(source.core, source.ownedString, m.ownedData)
    case BinaryCore(_) => Instance(source.core, m.ownedString, source.ownedData)
    case _ => m.(core := source.core)
  }

  /** What a move leaves: an emptied string; an emptied binary where it is core's own
      buffer, but the bytes themselves in the build whose binary copies them; and no core
      value where that is shared. */
  function MovedOut(build: Bridge.Build, m: Instance): Instance
    requires m.core.Some?
  {
    var left := if build == Bridge.SharedCell then None else m.core;
    match m.core.value
    case StringCore(_) => Instance(left, [], m.ownedData)
    case BinaryCore(_) => Instance(left, m.ownedString, if build == Bridge.SharedCell then m.ownedData else [])
    case _ => m.(core := left)
  }

  // ----- every sequence of operations -----

  datatype Op =
    | New(v: Value, at: Address)
    | Copy(from: nat)
    | Move(from: nat)
    | Assign(to: nat, from: nat)
    | MoveAssign(to: nat, from: nat)

  function Step(build: Bridge.Build, pool: seq<Instance>, op: Op): seq<Instance>
    requires Ready(pool, op)
  {
    match op
    case New(v, at) => pool + [Fresh(v, at)]
    case Copy(j) => pool + [Copied(UNSET, pool[j])]
    case Move(j) => pool[j := MovedOut(build, pool[j])] + [Copied(UNSET, pool[j])]
    case Assign(i, j) => if i == j then pool else pool[i := Copied(pool[i], pool[j])]
    case MoveAssign(i, j) =>
      if i == j then pool else pool[j := MovedOut(build, pool[j])][i := Copied(pool[i], pool[j])]
  }

  /** The source of an operation still has its core value. */
  predicate Ready(pool: seq<Instance>, op: Op) {
    match op
    case New(_, _) => true
    case Copy(j) => j < |pool| && pool[j].core.Some?
    case Move(j) => j < |pool| && pool[j].core.Some?
    case Assign(i, j) => i < |pool| && j < |pool| && pool[j].core.Some?
    case MoveAssign(i, j) => i < |pool| && j < |pool| && pool[j].core.Some?
  }

  /** The values the variables should hold; `None` after a value was moved out. */
  function Ideal(vals: seq<Option<Value>>, op: Op): seq<Option<Value>>
    requires Live(vals, op)
  {
    match op
    case New(v, _) => vals + [Some(v)]
    case Copy(j) => vals + [vals[j]]
    case Move(j) => vals[j := None] + [vals[j]]
    case Assign(i, j) => vals[i := vals[j]]
    case MoveAssign(i, j) => vals[j := None][i := vals[j]]
  }

  predicate Live(vals: seq<Option<Value>>, op: Op) {
    match op
    case New(_, _) => true
    case Copy(j) => j < |vals| && vals[j].Some?
    case Move(j) => j < |vals| && vals[j].Some?
    case Assign(i, j) => i < |vals| && j < |vals| && vals[j].Some?
    case MoveAssign(i, j) => i < |vals| && j < |vals| && vals[j].Some?
  }

  predicate Lively(vals: seq<Option<Value>>, ops: seq<Op>)
    decreases |ops|
  {
    ops == [] || (Live(vals, ops[0]) && Lively(Ideal(vals, ops[0]), ops[1..]))
  }

  function Ideals(vals: seq<Option<Value>>, ops: seq<Op>): seq<Option<Value>>
    requires Lively(vals, ops)
    decreases |ops|
  {
    if ops == [] then vals else Ideals(Ideal(vals, ops[0]), ops[1..])
  }

  /** Every variable that should hold a value converts to it. */
  predicate Holds(pool: seq<Instance>, vals: seq<Option<Value>>) {
    |pool| == |vals|
    && forall k :: 0 <= k < |pool| && vals[k].Some? ==> pool[k].core.Some? && Converted(pool[k]) == vals[k].value
  }

  lemma StepHolds(build: Bridge.Build, pool: seq<Instance>, vals: seq<Option<Value>>, op: Op)
    requires Holds(pool, vals) && Live(vals, op)
    ensures Ready(pool, op) && Holds(Step(build, pool, op), Ideal(vals, op))
  {
    var next, ideal := Step(build, pool, op), Ideal(vals, op);
    forall k | 0 <= k < |next| && ideal[k].Some?
      ensures next[k].core.Some? && Converted(next[k]) == ideal[k].value
    {
      if k < |pool| && vals[k].Some? {
        assert Converted(pool[k]) == vals[k].value;
      }
    }
  }

  function Run(build: Bridge.Build, pool: seq<Instance>, vals: seq<Option<Value>>, ops: seq<Op>): seq<Instance>
    requires Holds(pool, vals) && Lively(vals, ops)
    decreases |ops|
  {
    if ops == [] then pool
    else
      StepHolds(build, pool, vals, ops[0]);
      Run(build, Step(build, pool, ops[0]), Ideal(vals, ops[0]), ops[1..])
  }

  /** Over any sequence of constructions, copies, moves and assignments from live variables,
      every live variable converts to the value it was last given, in both builds. */
  lemma {:induction false} LiveValuesSurvive(build: Bridge.Build, pool: seq<Instance>, vals: seq<Option<Value>>, ops: seq<Op>)
    requires Holds(pool, vals) && Lively(vals, ops)
    ensures Holds(Run(build, pool, vals, ops), Ideals(vals, ops))
    decreases |ops|
  {
    if ops != [] {
      StepHolds(build, pool, vals, ops[0]);
      LiveValuesSurvive(build, Step(build, pool, ops[0]), Ideal(vals, ops[0]), ops[1..]);
    }
  }

  /** A moved-from variable has no value where core values are shared. Where they are
      copied, it reads as an empty string or binary if it was one, and otherwise as before;
      so as its old value exactly when that used neither buffer, or an empty one. */
  lemma AfterMove(build: Bridge.Build, m: Instance)
    requires m.core.Some?
    ensures build == Bridge.SharedCell ==> MovedOut(build, m).core == None
    ensures build == Bridge.DeepCopy ==>
      var left, was := MovedOut(build, m), Converted(m);
      left.core.Some? && Converted(left) == if was.Text? then Text([]) else if was.Bytes? then Bytes([]) else was
    ensures var left := MovedOut(build, m);
      (left.core.Some? && Converted(left) == Converted(m)) <==>
      (build == Bridge.DeepCopy && (m.core.value.StringCore? ==> m.ownedString == [])
       && (m.core.value.BinaryCore? ==> m.ownedData == []))
  {
  }

  // ----- variants -----

  /** What a variant property can hold. Payloads core keeps as they are appear as numbers;
      `Enumerator` is an enumeration, `Int32` a plain `int` and `Chars` a `const char*` among
      the alternatives of a user's variant. */
  datatype Alternative =
    | Monostate
    | Int64(i: int)
    | Boolean(b: bool)
    | String(s: string)
    | Double(bits: int)
    | Binary(bytes: seq<nat>)
    | TimePoint(bits: int)
    | Uuid(bits: int)
    | ObjectId(bits: int)
    | Decimal(bits: int)
    | Enumerator(i: int)
    | Int32(i: int)
    | Chars(s: string)

  /** `serialize`: each alternative as its internal type. */
  function Serialized(v: Alternative): Value {
    match v
    case Monostate => Nothing
    case Int64(i) => Plain(IntType, i)
    case Boolean(b) => Plain(BoolType, if b then 1 else 0)
    case String(s) => Text(s)
    case Double(bits) => Plain(DoubleType, bits)
    case Binary(bytes) => Bytes(bytes)
    case TimePoint(bits) => Plain(TimestampType, bits)
    case Uuid(bits) => Plain(UuidType, bits)
    case ObjectId(bits) => Plain(ObjectIdType, bits)
    case Decimal(bits) => Plain(DecimalType, bits)
    case Enumerator(i) => Plain(IntType, i)
    case Int32(i) => Plain(IntType, i)
    case Chars(s) => Text(s)
  }

  /** `deserialize`: a null test, then a switch on the type of the core value, each case
      with the conversion operator of that type. `None` is an exception. */
  function Deserialized(m: Instance): Option<Alternative>
    requires m.core.Some?
  {
    match m.core.value
    case NullCore => Some(Monostate)
    case StringCore(_) => Some(String(m.ownedString))
    case BinaryCore(_) => Some(Binary(m.ownedData))
    case PlainCore(kind, bits) =>
      match kind
      case IntType => Some(Int64(bits))
      case BoolType => Some(Boolean(bits != 0))
      case TimestampType => Some(TimePoint(bits))
      case FloatType => Some(Double(bits))
      case DoubleType => Some(Double(bits))
      case UuidType => Some(Uuid(bits))
      case ObjectIdType => Some(ObjectId(bits))
      case DecimalType => Some(Decimal(bits))
      case TypedLinkType => None
  }

  /** As what an alternative comes back: an enumeration and an `int` as `int64_t`, a
      `const char*` as a string, every other one as itself. */
  function Returned(v: Alternative): Alternative {
    match v
    case Enumerator(i) => Int64(i)
    case Int32(i) => Int64(i)
    case Chars(s) => String(s)
    case _ => v
  }

  /** A variant value, serialized and then constructed, copied, moved and assigned about in
      any way, deserializes so from every live variable that holds it, and to itself if and
      only if it is neither an enumeration nor an `int` nor a `const char*`. */
  lemma VariantsSurvive(build: Bridge.Build, ops: seq<Op>, k: nat, v: Alternative)
    requires Lively([], ops) && k < |Ideals([], ops)| && Ideals([], ops)[k] == Some(Serialized(v))
    ensures |Run(build, [], [], ops)| == |Ideals([], ops)| && Run(build, [], [], ops)[k].core.Some?
    ensures Deserialized(Run(build, [], [], ops)[k]) == Some(Returned(v))
    ensures Deserialized(Run(build, [], [], ops)[k]) == Some(v) <==> !v.Enumerator? && !v.Int32? && !v.Chars?
  {
    LiveValuesSurvive(build, [], [], ops);
    assert Converted(Run(build, [], [], ops)[k]) == Serialized(v);
  }

  /** Values of the types no alternative has: a float comes back as a double, a link not at
      all, wherever the value was copied, moved and assigned. */
  lemma OtherTypesReturn(build: Bridge.Build, ops: seq<Op>, k: nat, kind: DataType, bits: int)
    requires Lively([], ops) && k < |Ideals([], ops)| && Ideals([], ops)[k] == Some(Plain(kind, bits))
    ensures |Run(build, [], [], ops)| == |Ideals([], ops)| && Run(build, [], [], ops)[k].core.Some?
    ensures Deserialized(Run(build, [], [], ops)[k]) == None <==> kind == TypedLinkType
    ensures kind == FloatType ==> Deserialized(Run(build, [], [], ops)[k]) == Some(Double(bits))
  {
    LiveValuesSurvive(build, [], [], ops);
    assert Converted(Run(build, [], [], ops)[k]) == Plain(kind, bits);
  }

  class MixedValue {
    var core: Option<Core>
    var ownedString: string
    var ownedData: seq<nat>

    ghost function View(): Instance
      reads this
    {
      Instance(core, ownedString, ownedData)
    }

    constructor FromNothing()
      ensures View() == Fresh(Nothing, 0)
    {
      core, ownedString, ownedData := Some(NullCore), [], [];
    }

    constructor FromString(s: string, at: Address)
      ensures View() == Fresh(Text(s), at)
    {
      core, ownedString, ownedData := Some(StringCore(at)), s, [];
    }

    constructor FromBinary(b: seq<nat>, at: Address)
      ensures View() == Fresh(Bytes(b), at)
    {
      core, ownedString, ownedData := Some(BinaryCore(at)), [], b;
    }

    constructor FromPlain(kind: DataType, bits: int)
      ensures View() == Fresh(Plain(kind, bits), 0)
    {
      core, ownedString, ownedData := Some(PlainCore(kind, bits)), [], [];
    }

    constructor Copy(other: MixedValue)
      requires other.core.Some?
      ensures View() == Copied(UNSET, other.View())
    {
      ownedString, ownedData := [], [];
      if other.core.value.StringCore? {
        ownedString := other.ownedString;
      } else if other.core.value.BinaryCore? {
        ownedData := other.ownedData;
      }
      core := other.core;
    }

    constructor Move(build: Bridge.Build, other: MixedValue)
      requires other.core.Some?
      modifies other
      ensures View() == Copied(UNSET, old(other.View())) && other.View() == MovedOut(build, old(other.View()))
    {
      core, ownedString, ownedData := None, [], [];
      new;
      MoveFrom(build, other);
    }

    method Assign(other: MixedValue)
      requires other.core.Some?
      modifies this
      ensures View() == if this == other then old(View()) else Copied(old(View()), old(other.View()))
    {
      if this == other { return; }
      if other.core.value.StringCore? {
        ownedString := other.ownedString;
      } else if other.core.value.BinaryCore? {
        ownedData := other.ownedData;
      }
      core := other.core;
    }

    method MoveAssign(build: Bridge.Build, other: MixedValue)
      requires other.core.Some?
      modifies this, other
      ensures this == other ==> View() == old(View())
      ensures this != other ==>
        View() == Copied(old(View()), old(other.View())) && other.View() == MovedOut(build, old(other.View()))
    {
      if this == other { return; }
      MoveFrom(build, other);
    }

    /** The body of both moves. */
    method MoveFrom(build: Bridge.Build, other: MixedValue)
      requires this != other && other.core.Some?
      modifies this, other
      ensures View() == Copied(old(View()), old(other.View())) && other.View() == MovedOut(build, old(other.View()))
    {
      if other.core.value.StringCore? {
        ownedString, other.ownedString := other.ownedString, [];
      } else if other.core.value.BinaryCore? {
        ownedData := other.ownedData;
        if build == Bridge.DeepCopy {
          other.ownedData := [];
        }
      }
      core := other.core;
      if build == Bridge.SharedCell {
        other.core := None;
      }
    }
  }
}
