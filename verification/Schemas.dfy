/** The schema tree shared by the layout and draw models, and a stock Option. */
module Options {
  datatype Option<+T> = None | Some(value: T)
}

module Schemas {
  import opened Options

  /** The three numeric types the map / filter / flat_map combinators produce. */
  datatype Num = NumInt | NumI64 | NumDouble

  /**
    One constructor per schema kind.  Drawn bounds are kept only where a length depends
    on them.  A callback that builds a schema (FLAT_MAP, DEPENDS) is given by the finite
    family of schemas it can return.
   */
  datatype Schema =
    | Integer(width: nat)
    | Float(width: nat)
    | Text
    | Regex
    | OptionalPtr(inner: Schema)
    | Self
    | ArrayInline(elem: Schema, elemSize: nat, minLen: nat, maxLen: nat, lenOffset: nat)
    | Struct(size: nat, align: nat, children: seq<Schema>, offsets: seq<nat>)
    | Union(tagged: bool, cases: seq<Schema>, clusterSize: nat, clusterAlign: nat)
    | Variant(cases: seq<Schema>)
    | OneOfStruct(cases: seq<Schema>)
    | OneOfScalar(cases: seq<Schema>)
    | MapNum(num: Num, source: Schema)
    | FilterNum(num: Num, source: Schema)
    | FlatMapNum(num: Num, source: Schema, produced: seq<Schema>)
    | Let(inner: Schema)
    | LetArr(length: Schema, elem: Schema)
    | Use(width: nat, isFloat: bool)
    | UseAt
    | UsePath
    | ArrOf(length: Schema, elem: Schema)
    | ConstInt(constant: int)
    | LenPrefixed(length: Schema, elem: Schema)
    | Terminated(length: Schema, elem: Schema)
    | Depends(slotSize: nat, slotAlign: nat, produced: seq<Schema>)
    | Derived(slotSize: nat, slotAlign: nat, lenOf: Option<nat>)
    | EngineLen(lo: nat, hi: nat)

  /** The shape invariants the constructors of the C library establish. */
  predicate WellFormed(s: Schema) {
    match s
    case OptionalPtr(inner) => inner.Self? || WellFormed(inner)
    case Self => false
    case ArrayInline(elem, _, lo, hi, _) =>
      (elem.Struct? || elem.Union?) && WellFormed(elem)
    case Struct(_, _, children, offsets) =>
      |children| == |offsets| && forall c <- children :: WellFormed(c)
    case Union(_, cases, _, _) => forall c <- cases :: c.Struct? && WellFormed(c)
    case Variant(cases) => forall c <- cases :: c.Struct? && WellFormed(c)
    case OneOfStruct(cases) => forall c <- cases :: c.Struct? && WellFormed(c)
    case OneOfScalar(cases) => forall c <- cases :: WellFormed(c)
    case MapNum(_, source) => WellFormed(source)
    case FilterNum(_, source) => WellFormed(source)
    case FlatMapNum(_, source, produced) => WellFormed(source) && forall c <- produced :: WellFormed(c)
    case Let(inner) => WellFormed(inner)
    case LetArr(length, elem) => IntSource(length) && WellFormed(length) && elem.Integer?
    case ArrOf(length, elem) => LengthKind(length, true) && WellFormed(elem)
    case LenPrefixed(length, elem) => LengthKind(length, false) && elem.Integer?
    case Terminated(length, elem) => LengthKind(length, false) && elem.Integer?
    case Depends(_, _, produced) => forall c <- produced :: WellFormed(c)
    case _ => true
  }

  /** Lengths must be a named binding or a literal; HEGEL_LEN only for HEGEL_ARR_OF, and
      not with its bounds the wrong way round. */
  predicate LengthKind(s: Schema, arrOf: bool) {
    s.Use? || s.UseAt? || s.UsePath? || s.ConstInt? || (arrOf && s.EngineLen? && s.lo <= s.hi)
  }

  /** The kinds that write one number and nothing else. */
  predicate IntSource(s: Schema) {
    s.Integer? || s.Use? || s.UseAt? || s.UsePath? || s.ConstInt? || s.MapNum? || s.FilterNum? ||
    s.FlatMapNum? || s.OneOfScalar?
  }
}
