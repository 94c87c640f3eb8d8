/** Values of a PubSub description and the Variants they stand for (Go). */
module PubSubValues {
  import opened Prelude
  import opened Matrix

  datatype TypeId =
    | Boolean | SByte | Byte | Int16 | UInt16 | Int32 | UInt32 | Int64 | UInt64 | Float | Double | String
    | DateTime | Guid | ByteString | NodeId | StatusCode | QualifiedName | LocalizedText

  function TypeName(t: TypeId): string {
    match t
    case Boolean => "Boolean" case SByte => "SByte" case Byte => "Byte" case Int16 => "Int16"
    case UInt16 => "UInt16" case Int32 => "Int32" case UInt32 => "UInt32" case Int64 => "Int64"
    case UInt64 => "UInt64" case Float => "Float" case Double => "Double" case String => "String"
    case DateTime => "DateTime" case Guid => "Guid" case ByteString => "ByteString" case NodeId => "NodeId"
    case StatusCode => "StatusCode" case QualifiedName => "QualifiedName" case LocalizedText => "LocalizedText"
  }

  /** The number of a built-in type (section 5.1.2 of OPC UA Part 6). */
  function BuiltInType(t: TypeId): nat {
    match t
    case Boolean => 1 case SByte => 2 case Byte => 3 case Int16 => 4 case UInt16 => 5 case Int32 => 6
    case UInt32 => 7 case Int64 => 8 case UInt64 => 9 case Float => 10 case Double => 11 case String => 12
    case DateTime => 13 case Guid => 14 case ByteString => 15 case NodeId => 17
    case StatusCode => 19 case QualifiedName => 20 case LocalizedText => 21
  }

  function TypeByName(name: string): Option<TypeId> {
    if name == "Boolean" then Some(Boolean)
    else if name == "SByte" then Some(SByte)
    else if name == "Byte" then Some(Byte)
    else if name == "Int16" then Some(Int16)
    else if name == "UInt16" then Some(UInt16)
    else if name == "Int32" then Some(Int32)
    else if name == "UInt32" then Some(UInt32)
    else if name == "Int64" then Some(Int64)
    else if name == "UInt64" then Some(UInt64)
    else if name == "Float" then Some(Float)
    else if name == "Double" then Some(Double)
    else if name == "String" then Some(String)
    else if name == "DateTime" then Some(DateTime)
    else if name == "Guid" then Some(Guid)
    else if name == "ByteString" then Some(ByteString)
    else if name == "NodeId" then Some(NodeId)
    else if name == "StatusCode" then Some(StatusCode)
    else if name == "QualifiedName" then Some(QualifiedName)
    else if name == "LocalizedText" then Some(LocalizedText)
    else None
  }

  lemma TypeRoundTrip(t: TypeId)
    ensures TypeByName(TypeName(t)) == Some(t)
  {
    match t {
      case Boolean =>
      case SByte =>
      case Byte =>
      case Int16 =>
      case UInt16 =>
      case Int32 =>
      case UInt32 =>
      case Int64 =>
      case UInt64 =>
      case Float =>
      case Double =>
      case String =>
      case DateTime =>
      case Guid =>
      case ByteString =>
      case NodeId =>
      case StatusCode =>
      case QualifiedName =>
      case LocalizedText =>
    }
  }

  /** The stack and the printers behind the description: times, GUIDs, JSON strings and scalars are
      opaque numbers with a text each. */
  datatype Codec = Codec(
    parseTime: string -> Option<int>, showTime: int -> string,
    newGuid: string -> int, showGuid: int -> string,
    parseString: string -> Option<string>, showString: string -> string,
    parseScalar: (TypeId, string) -> Option<int>, showScalar: (TypeId, int) -> string,
    pack: seq<int> -> int,
    typeByName: string -> Option<TypeId>, typeName: TypeId -> string)

  // Printing loses precision at most once: what is printed reads back as something that prints the same.

  predicate TimeStable(c: Codec, t: int) {
    var r := c.parseTime(c.showTime(t)); r.Some? && c.showTime(r.value) == c.showTime(t)
  }

  predicate GuidStable(c: Codec, g: int) { c.showGuid(c.newGuid(c.showGuid(g))) == c.showGuid(g) }

  predicate StringStable(c: Codec, s: string) { c.parseString(c.showString(s)) == Some(s) }

  predicate ScalarStable(c: Codec, t: TypeId, x: int) {
    var r := c.parseScalar(t, c.showScalar(t, x)); r.Some? && c.showScalar(t, r.value) == c.showScalar(t, x)
  }

  predicate TypeStable(c: Codec, t: TypeId) { c.typeByName(c.typeName(t)) == Some(t) && c.typeName(t) != "Null" }

  ghost predicate Lawful(c: Codec) {
    && (forall t :: TimeStable(c, t)) && (forall g :: GuidStable(c, g)) && (forall s :: StringStable(c, s))
    && (forall t, x :: ScalarStable(c, t, x)) && (forall t :: TypeStable(c, t))
  }

  /** A codec with the type names of the description and nothing else to tell apart. */
  function PlainCodec(): Codec {
    Codec((s: string) => Some(0), (t: int) => "", (s: string) => 0, (g: int) => "", (s: string) => Some(s),
          (s: string) => s, (t: TypeId, s: string) => Some(0), (t: TypeId, x: int) => "", (xs: seq<int>) => 0,
          (s: string) => TypeByName(s), (t: TypeId) => TypeName(t))
  }

  /** The laws can be met, and the type names of the description meet theirs. */
  lemma PlainCodecIsLawful()
    ensures Lawful(PlainCodec())
  {
    forall t ensures TypeStable(PlainCodec(), t) { TypeRoundTrip(t); }
  }

  datatype Shape = Scalar(x: int) | Array(xs: seq<int>) | Rows2(rows: seq<seq<int>>)

  datatype Variant = Variant(typ: TypeId, shape: Shape)

  /** The JSON value of a description: an array, or anything else. */
  datatype Raw = Text(text: string) | Items(items: seq<string>)

  /** A value as the description writes it. */
  datatype Canon = Canon(dataType: string, raw: Raw, dims: seq<nat>)

  /** A description that cannot be converted, and an index past the end of a Go slice. */
  datatype Failure = DescError | IndexPanic

  function Packed(c: Codec, rows: seq<seq<int>>): (r: seq<int>)
    ensures |r| == |rows| && forall i :: 0 <= i < |rows| ==> r[i] == c.pack(rows[i])
  {
    seq(|rows|, i requires 0 <= i < |rows| => c.pack(rows[i]))
  }

  /** A slice of bytes is a ByteString to the stack. */
  function Box(c: Codec, t: TypeId, s: Shape): Variant {
    if t != Byte then Variant(t, s)
    else match s
      case Scalar(_) => Variant(t, s)
      case Array(xs) => Variant(ByteString, Scalar(c.pack(xs)))
      case Rows2(rows) => Variant(ByteString, Array(Packed(c, rows)))
  }

  function Parser(c: Codec, t: TypeId): string -> Option<int> { (s: string) => c.parseScalar(t, s) }

  function FromCanon(c: Codec, v: Canon): Result<Option<Variant>, Failure> {
    if v.dataType == "Null" then Ok(None)
    else match c.typeByName(v.dataType)
      case None => Err(DescError)
      case Some(t) =>
        match v.raw
        case Text(text) =>
          (match c.parseScalar(t, text)
           case None => Err(DescError)
           case Some(x) => Ok(Some(Variant(t, Scalar(x)))))
        case Items(items) =>
          match ParseAll(items, Parser(c, t))
          case None => Err(DescError)
          case Some(xs) =>
            if |v.dims| != 2 then Ok(Some(Box(c, t, Array(xs))))
            else if Times(v.dims[0], v.dims[1]) > |xs| then Err(IndexPanic)
            else Ok(Some(Box(c, t, Rows2(Rows(xs, v.dims[0], v.dims[1])))))
  }

  function Shown(c: Codec, t: TypeId, xs: seq<int>): (r: seq<string>)
    ensures |r| == |xs| && forall i :: 0 <= i < |xs| ==> r[i] == c.showScalar(t, xs[i])
  {
    seq(|xs|, i requires 0 <= i < |xs| => c.showScalar(t, xs[i]))
  }

  function Dims(rows: seq<seq<int>>): seq<nat> { if rows == [] then [] else [|rows|, |rows[0]|] }

  function ToCanon(c: Codec, v: Option<Variant>): Canon {
    match v
    case None => Canon("Null", Text("null"), [])
    case Some(Variant(t, Scalar(x))) => Canon(c.typeName(t), Text(c.showScalar(t, x)), [])
    case Some(Variant(t, Array(xs))) => Canon(c.typeName(t), Items(Shown(c, t, xs)), [])
    case Some(Variant(t, Rows2(rows))) => Canon(c.typeName(t), Items(Shown(c, t, Flatten(rows))), Dims(rows))
  }

  /** A null value, or a known type with readable elements, enough of them for the dimensions of a matrix. */
  predicate ValueConvertible(c: Codec, v: Canon) {
    v.dataType == "Null"
    || (c.typeByName(v.dataType).Some?
        && var t := c.typeByName(v.dataType).value;
           match v.raw
           case Text(text) => c.parseScalar(t, text).Some?
           case Items(items) =>
             && (forall i :: 0 <= i < |items| ==> c.parseScalar(t, items[i]).Some?)
             && (|v.dims| == 2 ==> Times(v.dims[0], v.dims[1]) <= |items|))
  }

  lemma ValueConvertibleIff(c: Codec, v: Canon)
    ensures FromCanon(c, v).Ok? <==> ValueConvertible(c, v)
  {
    if v.dataType != "Null" && c.typeByName(v.dataType).Some? && v.raw.Items? {
      var t := c.typeByName(v.dataType).value;
      ParseAllIs(c, t, v.raw.items);
      if ParseAll(v.raw.items, Parser(c, t)).Some? {
        ParseAllLength(v.raw.items, Parser(c, t));
      }
    }
  }

  // ---- the loops

  /** The matrix of a description, element by element. */
  method BuildRows(xs: seq<int>, d0: nat, d1: nat) returns (r: Option<seq<seq<int>>>)
    ensures r.None? <==> Times(d0, d1) > |xs|
    ensures r.Some? ==> r.value == Rows(xs, d0, d1)
  {
    var outer: seq<seq<int>> := [];
    for i := 0 to d0
      invariant Times(i, d1) <= |xs| && outer == Rows(xs, i, d1)
    {
      TimesIs(i, d1);
      TimesMonotone(i + 1, d0, d1);
      var row: seq<int> := [];
      for j := 0 to d1
        invariant i * d1 + j <= |xs| && row == xs[i * d1..i * d1 + j]
      {
        if i * d1 + j >= |xs| {
          return None;
        }
        row := row + [xs[i * d1 + j]];
      }
      outer := outer + [row];
    }
    return Some(outer);
  }

  /** The walk over a matrix: its elements in row-major order and the length first met at each depth. */
  method Walk(rows: seq<seq<int>>) returns (flat: seq<int>, dims: seq<nat>)
    ensures flat == Flatten(rows) && dims == Dims(rows)
  {
    flat, dims := [], [|rows|];
    for i := 0 to |rows|
      invariant flat == Flatten(rows[..i])
      invariant dims == if i == 0 then [|rows|] else [|rows|, |rows[0]|]
    {
      if |dims| <= 1 {
        dims := dims + [|rows[i]|];
      }
      FlattenSnoc(rows[..i], rows[i]);
      assert rows[..i + 1] == rows[..i] + [rows[i]];
      flat := flat + rows[i];
    }
    assert rows[..|rows|] == rows;
    if |dims| < 2 {
      dims := [];
    }
  }

  // ---- the normal form of a value

  function Norm(c: Codec, t: TypeId, s: string): string
    requires c.parseScalar(t, s).Some?
  {
    c.showScalar(t, c.parseScalar(t, s).value)
  }

  function NormAll(c: Codec, t: TypeId, items: seq<string>): (r: seq<string>)
    requires forall i :: 0 <= i < |items| ==> c.parseScalar(t, items[i]).Some?
    ensures |r| == |items| && forall i :: 0 <= i < |items| ==> r[i] == Norm(c, t, items[i])
  {
    seq(|items|, i requires 0 <= i < |items| => Norm(c, t, items[i]))
  }

  lemma {:induction false} ParseAllIs(c: Codec, t: TypeId, items: seq<string>)
    ensures ParseAll(items, Parser(c, t)).Some? <==> forall i :: 0 <= i < |items| ==> c.parseScalar(t, items[i]).Some?
    ensures ParseAll(items, Parser(c, t)).Some? ==>
              Shown(c, t, ParseAll(items, Parser(c, t)).value) == NormAll(c, t, items)
  {
    if items != [] {
      var n := |items| - 1;
      ParseAllIs(c, t, items[..n]);
      var x := Parser(c, t)(items[n]);
      if ParseAll(items[..n], Parser(c, t)).Some? && x.Some? {
        var xs := ParseAll(items[..n], Parser(c, t)).value;
        ParseAllLength(items[..n], Parser(c, t));
        forall i | 0 <= i < n ensures Shown(c, t, xs + [x.value])[i] == Norm(c, t, items[i]) {
          assert Shown(c, t, xs)[i] == NormAll(c, t, items[..n])[i];
        }
      }
    }
  }

  /** What is left of a value: its elements in canonical text, the dimensions of a matrix that has rows,
      no element past the dimensions, and a ByteString in place of a slice of bytes. */
  function NormalValue(c: Codec, v: Canon): Canon
    requires FromCanon(c, v).Ok?
  {
    if v.dataType == "Null" then Canon("Null", Text("null"), [])
    else
      var t := c.typeByName(v.dataType).value;
      match v.raw
      case Text(text) => Canon(c.typeName(t), Text(Norm(c, t, text)), [])
      case Items(items) =>
        ParseAllIs(c, t, items);
        var xs := ParseAll(items, Parser(c, t)).value;
        if |v.dims| != 2 then
          if t == Byte then Canon(c.typeName(ByteString), Text(c.showScalar(ByteString, c.pack(xs))), [])
          else Canon(c.typeName(t), Items(NormAll(c, t, items)), [])
        else if t == Byte then
          Canon(c.typeName(ByteString), Items(Shown(c, ByteString, Packed(c, Rows(xs, v.dims[0], v.dims[1])))), [])
        else if v.dims[0] == 0 then Canon(c.typeName(t), Items([]), [])
        else
          ParseAllLength(items, Parser(c, t));
          Canon(c.typeName(t), Items(NormAll(c, t, items)[..Times(v.dims[0], v.dims[1])]), v.dims)
  }

  lemma ShownPrefix(c: Codec, t: TypeId, xs: seq<int>, n: nat)
    requires n <= |xs|
    ensures Shown(c, t, xs[..n]) == Shown(c, t, xs)[..n]
  {
  }

  lemma DescribedValue(c: Codec, v: Canon)
    requires FromCanon(c, v).Ok?
    ensures ToCanon(c, FromCanon(c, v).value) == NormalValue(c, v)
  {
    if v.dataType != "Null" && v.raw.Items? {
      var t := c.typeByName(v.dataType).value;
      ParseAllIs(c, t, v.raw.items);
      if |v.dims| == 2 && t != Byte {
        ParseAllLength(v.raw.items, Parser(c, t));
        var xs := ParseAll(v.raw.items, Parser(c, t)).value;
        FlattenRows(xs, v.dims[0], v.dims[1]);
        ShownPrefix(c, t, xs, Times(v.dims[0], v.dims[1]));
      }
    }
  }

  /** What `FromCanon` builds. */
  ghost predicate Proper(v: Variant) {
    match v.shape
    case Scalar(_) => true
    case Array(_) => v.typ != Byte
    case Rows2(rows) => v.typ != Byte && forall i :: 0 <= i < |rows| ==> |rows[i]| == |rows[0]|
  }

  lemma BuiltIsProper(c: Codec, v: Canon)
    requires FromCanon(c, v).Ok? && FromCanon(c, v).value.Some?
    ensures Proper(FromCanon(c, v).value.value)
  {
  }

  lemma ShownParses(c: Codec, t: TypeId, xs: seq<int>)
    requires Lawful(c)
    ensures var r := ParseAll(Shown(c, t, xs), Parser(c, t));
            r.Some? && |r.value| == |xs| && Shown(c, t, r.value) == Shown(c, t, xs)
  {
    var items := Shown(c, t, xs);
    forall i | 0 <= i < |items| ensures c.parseScalar(t, items[i]).Some? && Norm(c, t, items[i]) == items[i] {
      assert ScalarStable(c, t, xs[i]);
    }
    ParseAllIs(c, t, items);
    ParseAllLength(items, Parser(c, t));
    assert NormAll(c, t, items) == items;
  }

  /** A described value reads back as one that is described the same. */
  lemma DescribedIsStable(c: Codec, w: Option<Variant>)
    requires Lawful(c) && (w.Some? ==> Proper(w.value))
    ensures var r := FromCanon(c, ToCanon(c, w)); r.Ok? && ToCanon(c, r.value) == ToCanon(c, w)
  {
    if w.Some? {
      var t := w.value.typ;
      assert TypeStable(c, t);
      match w.value.shape
      case Scalar(x) => assert ScalarStable(c, t, x);
      case Array(xs) => ShownParses(c, t, xs);
      case Rows2(rows) => StableRows(c, t, rows);
    }
  }

  lemma StableRows(c: Codec, t: TypeId, rows: seq<seq<int>>)
    requires Lawful(c) && Proper(Variant(t, Rows2(rows)))
    ensures var w := Some(Variant(t, Rows2(rows)));
            var r := FromCanon(c, ToCanon(c, w)); r.Ok? && ToCanon(c, r.value) == ToCanon(c, w)
  {
    var flat := Flatten(rows);
    assert TypeStable(c, t);
    ShownParses(c, t, flat);
    if rows != [] {
      var m := |rows[0]|;
      RowsFlatten(rows, m);
      var ys := ParseAll(Shown(c, t, flat), Parser(c, t)).value;
      FlattenRows(ys, |rows|, m);
      assert ys[..Times(|rows|, m)] == ys;
    }
  }

  /** Normalising a value twice changes nothing. */
  lemma NormalValueIsNormal(c: Codec, v: Canon)
    requires Lawful(c) && FromCanon(c, v).Ok?
    ensures FromCanon(c, NormalValue(c, v)).Ok? && NormalValue(c, NormalValue(c, v)) == NormalValue(c, v)
  {
    var w := FromCanon(c, v).value;
    DescribedValue(c, v);
    if w.Some? {
      BuiltIsProper(c, v);
    }
    DescribedIsStable(c, w);
    DescribedValue(c, NormalValue(c, v));
  }
}
