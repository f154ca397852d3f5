/**
 The message codec: values to JSON trees, to bytes, and back. Numpy's type names and number
 conversions are parameters, and so is the JSON text, of which the compact one is an instance.
 */
module Codec {
  import opened Framing
  import opened JsonSyntax
  import Utf8

  datatype Key = TextKey(text: string) | OtherKey(id: int)

  datatype Value =
    | Nothing
    | Text(text: string)
    | Num(number: Number)
    | Items(items: seq<Value>)
    | Tuple(items: seq<Value>)
    | Dict(entries: map<Key, Value>)
    | Array(dtype: string, shape: seq<nat>, data: seq<Number>)
    | NumpyScalar(item: Value)
    | Unsupported

  datatype Result<T> = Ok(value: T) | CodecError

  /** numpy: which type a name stands for, the kind of a type, and a list converted to a type and reshaped. */
  datatype Numpy = Numpy(
    parse: Json -> Result<string>, kind: string -> char,
    asArray: (string, seq<Json>, seq<nat>) -> Result<seq<Number>>)

  const MARKER := "__kernelleaf_ndarray__"
  const FIELDS := {MARKER, "dtype", "shape", "data"}

  predicate SupportedKind(kind: char) { kind in "biuf" }

  function Product(shape: seq<nat>): nat {
    if shape == [] then 1 else shape[0] * Product(shape[1..])
  }

  /** What numpy guarantees of an array it holds. */
  ghost predicate ValidArray(np: Numpy, dtype: string, shape: seq<nat>, data: seq<Number>) {
    |data| == Product(shape) && np.parse(JText(dtype)) == Ok(dtype) && np.asArray(dtype, Numbers(data), shape) == Ok(data)
  }

  function Numbers(data: seq<Number>): seq<Json> {
    seq(|data|, i requires 0 <= i < |data| => JNum(data[i]))
  }

  function Extents(shape: seq<nat>): seq<Json> {
    seq(|shape|, i requires 0 <= i < |shape| => JNum(Whole(shape[i])))
  }

  ghost predicate ValidArrays(np: Numpy, v: Value) {
    match v
    case Items(items) => forall i | 0 <= i < |items| :: ValidArrays(np, items[i])
    case Tuple(items) => forall i | 0 <= i < |items| :: ValidArrays(np, items[i])
    case Dict(entries) => forall k | k in entries :: ValidArrays(np, entries[k])
    case Array(dtype, shape, data) => ValidArray(np, dtype, shape, data)
    case NumpyScalar(item) => ValidArrays(np, item)
    case _ => true
  }

  predicate AllFinite(data: seq<Number>) {
    forall i | 0 <= i < |data| :: !data[i].NotFinite?
  }

  // ----- encoding -----

  function EncodeArray(np: Numpy, dtype: string, shape: seq<nat>, data: seq<Number>): Result<Json> {
    if !SupportedKind(np.kind(dtype)) then CodecError
    else if np.kind(dtype) == 'f' && !AllFinite(data) then CodecError
    else Ok(JObject(map[
      MARKER := JNum(Flag(true)),
      "dtype" := JText(dtype),
      "shape" := JList(Extents(shape)),
      "data" := JList(Numbers(data))]))
  }

  function EncodeAll(np: Numpy, items: seq<Value>): (r: Result<seq<Json>>)
    ensures r.Ok? ==> |r.value| == |items|
    ensures r.Ok? <==> forall i | 0 <= i < |items| :: Encode(np, items[i]).Ok?
    ensures r.Ok? ==> forall i | 0 <= i < |items| :: Encode(np, items[i]) == Ok(r.value[i])
    decreases items
  {
    if items == [] then Ok([])
    else
      var first, rest := Encode(np, items[0]), EncodeAll(np, items[1..]);
      assert forall i | 0 < i < |items| :: items[i] == items[1..][i - 1];
      if first.Ok? && rest.Ok? then Ok([first.value] + rest.value) else CodecError
  }

  function Texts(entries: map<Key, Value>): (texts: set<string>)
    ensures forall t :: t in texts <==> TextKey(t) in entries
  {
    var texts := set k | k in entries && k.TextKey? :: k.text;
    assert forall t | TextKey(t) in entries :: TextKey(t).text in texts;
    texts
  }

  function TextKeys(fields: map<string, Json>): (keys: set<Key>)
    ensures forall k :: k in keys <==> k.TextKey? && k.text in fields
  {
    var keys := set t | t in fields :: TextKey(t);
    assert forall k: Key | k.TextKey? && k.text in fields :: TextKey(k.text) == k;
    keys
  }

  function Encode(np: Numpy, v: Value): Result<Json>
    decreases v
  {
    match v
    case Array(dtype, shape, data) => EncodeArray(np, dtype, shape, data)
    case NumpyScalar(item) => Encode(np, item)
    case Dict(entries) =>
      if TextKey(MARKER) in entries then CodecError
      else if exists k :: k in entries && k.OtherKey? then CodecError
      else if exists k :: k in entries && Encode(np, entries[k]).CodecError? then CodecError
      else Ok(JObject(map t | t in Texts(entries) :: Encode(np, entries[TextKey(t)]).value))
    case Items(items) => EncodeItems(EncodeAll(np, items))
    case Tuple(items) => EncodeItems(EncodeAll(np, items))
    case Nothing => Ok(JNull)
    case Text(text) => Ok(JText(text))
    case Num(n) => Ok(JNum(n))
    case Unsupported => CodecError
  }

  function EncodeItems(r: Result<seq<Json>>): Result<Json> {
    if r.Ok? then Ok(JList(r.value)) else CodecError
  }

  // ----- decoding -----

  predicate IsExtent(j: Json) { j.JNum? && j.number.Whole? && j.number.i >= 0 }

  function DecodeShape(items: seq<Json>): (r: Result<seq<nat>>)
    ensures r.Ok? <==> forall i | 0 <= i < |items| :: IsExtent(items[i])
    ensures r.Ok? ==> Extents(r.value) == items
  {
    if items == [] then Ok([])
    else
      var rest := DecodeShape(items[1..]);
      assert forall i | 0 < i < |items| :: items[i] == items[1..][i - 1];
      if IsExtent(items[0]) && rest.Ok? then
        var shape := [items[0].number.i] + rest.value;
        assert Extents(shape) == [items[0]] + Extents(rest.value);
        Ok(shape)
      else CodecError
  }

  function DecodeArray(np: Numpy, fields: map<string, Json>): Result<Value> {
    if fields.Keys != FIELDS || fields[MARKER] != JNum(Flag(true)) then CodecError
    else if !fields["shape"].JList? || DecodeShape(fields["shape"].items).CodecError? then CodecError
    else
      var shape, dtype := DecodeShape(fields["shape"].items).value, np.parse(fields["dtype"]);
      if dtype.CodecError? || !SupportedKind(np.kind(dtype.value)) then CodecError
      else if !fields["data"].JList? || |fields["data"].items| != Product(shape) then CodecError
      else
        var data := np.asArray(dtype.value, fields["data"].items, shape);
        if data.CodecError? || (np.kind(dtype.value) == 'f' && !AllFinite(data.value)) then CodecError
        else Ok(Array(dtype.value, shape, data.value))
  }

  function DecodeAll(np: Numpy, items: seq<Json>): (r: Result<seq<Value>>)
    ensures r.Ok? ==> |r.value| == |items|
    ensures r.Ok? <==> forall i | 0 <= i < |items| :: Decode(np, items[i]).Ok?
    ensures r.Ok? ==> forall i | 0 <= i < |items| :: Decode(np, items[i]) == Ok(r.value[i])
    decreases items
  {
    if items == [] then Ok([])
    else
      var first, rest := Decode(np, items[0]), DecodeAll(np, items[1..]);
      assert forall i | 0 < i < |items| :: items[i] == items[1..][i - 1];
      if first.Ok? && rest.Ok? then Ok([first.value] + rest.value) else CodecError
  }

  function Decode(np: Numpy, j: Json): Result<Value>
    decreases j
  {
    match j
    case JObject(fields) =>
      if MARKER in fields then DecodeArray(np, fields)
      else if exists k :: k in fields && Decode(np, fields[k]).CodecError? then CodecError
      else Ok(Dict(map k | k in TextKeys(fields) :: Decode(np, fields[k.text]).value))
    case JList(items) =>
      var all := DecodeAll(np, items);
      if all.Ok? then Ok(Items(all.value)) else CodecError
    case JNull => Ok(Nothing)
    case JText(text) => Ok(Text(text))
    case JNum(n) => Ok(Num(n))
  }

  // ----- the round trip -----

  /** What a value becomes on the other side: tuples are lists, numpy scalars Python numbers. */
  function Normal(v: Value): Value
    decreases v
  {
    match v
    case Items(items) => Items(NormalAll(items))
    case Tuple(items) => Items(NormalAll(items))
    case Dict(entries) => Dict(map k | k in entries :: Normal(entries[k]))
    case NumpyScalar(item) => Normal(item)
    case _ => v
  }

  function NormalAll(items: seq<Value>): (all: seq<Value>)
    ensures |all| == |items|
    ensures forall i | 0 <= i < |items| :: all[i] == Normal(items[i])
    decreases items
  {
    if items == [] then [] else [Normal(items[0])] + NormalAll(items[1..])
  }

  lemma {:induction false} ExtentsDecode(shape: seq<nat>)
    ensures DecodeShape(Extents(shape)) == Ok(shape)
  {
    if shape != [] {
      ExtentsDecode(shape[1..]);
      assert Extents(shape)[1..] == Extents(shape[1..]);
      assert Extents(shape)[0] == JNum(Whole(shape[0]));
      assert [shape[0]] + shape[1..] == shape;
    } else {
      assert Extents(shape) == [];
    }
  }

  lemma ArrayRoundTrip(np: Numpy, dtype: string, shape: seq<nat>, data: seq<Number>)
    requires ValidArray(np, dtype, shape, data) && EncodeArray(np, dtype, shape, data).Ok?
    ensures EncodeArray(np, dtype, shape, data).value.JObject?
    ensures var fields := EncodeArray(np, dtype, shape, data).value.fields;
            MARKER in fields && DecodeArray(np, fields) == Ok(Array(dtype, shape, data))
  {
    ExtentsDecode(shape);
    var fields := EncodeArray(np, dtype, shape, data).value.fields;
    assert fields.Keys == FIELDS;
    assert |Numbers(data)| == |data|;
  }

  lemma {:induction false} ItemsRoundTrip(np: Numpy, items: seq<Value>)
    requires forall i | 0 <= i < |items| :: ValidArrays(np, items[i])
    requires EncodeAll(np, items).Ok?
    ensures DecodeAll(np, EncodeAll(np, items).value) == Ok(NormalAll(items))
    decreases items
  {
    var encoded := EncodeAll(np, items).value;
    forall i | 0 <= i < |items| ensures Decode(np, encoded[i]) == Ok(NormalAll(items)[i]) {
      RoundTrip(np, items[i]);
    }
    assert DecodeAll(np, encoded).value == NormalAll(items);
  }

  /** The object of a dictionary has its keys and their encoded values. */
  lemma DictFields(np: Numpy, v: Value)
    requires v.Dict? && Encode(np, v).Ok?
    ensures Encode(np, v).value.JObject?
    ensures var fields := Encode(np, v).value.fields;
            && MARKER !in fields
            && (forall k | k in v.entries ::
                  k.TextKey? && k.text in fields && Encode(np, v.entries[k]) == Ok(fields[k.text]))
            && (forall t | t in fields :: TextKey(t) in v.entries)
  {
    forall k | k in v.entries ensures k.TextKey? && Encode(np, v.entries[k]).Ok? && TextKey(k.text) == k {
    }
  }

  lemma DecodedDict(np: Numpy, fields: map<string, Json>) returns (entries: map<Key, Value>)
    requires MARKER !in fields && forall t | t in fields :: Decode(np, fields[t]).Ok?
    ensures Decode(np, JObject(fields)) == Ok(Dict(entries))
    ensures forall k :: k in entries <==> k.TextKey? && k.text in fields
    ensures forall k | k in entries :: Decode(np, fields[k.text]) == Ok(entries[k])
  {
    entries := Decode(np, JObject(fields)).value.entries;
  }

  lemma {:induction false} DictRoundTrip(np: Numpy, v: Value)
    requires v.Dict? && ValidArrays(np, v) && Encode(np, v).Ok?
    ensures Decode(np, Encode(np, v).value) == Ok(Normal(v))
    decreases v, 0
  {
    DictFields(np, v);
    var fields := Encode(np, v).value.fields;
    forall k | k in v.entries ensures Decode(np, fields[k.text]) == Ok(Normal(v.entries[k])) {
      RoundTrip(np, v.entries[k]);
    }
    hide Encode, ValidArrays, Decode;
    forall t | t in fields ensures Decode(np, fields[t]) == Ok(Normal(v.entries[TextKey(t)])) {
      assert TextKey(t).text == t;
    }
    var decoded := DecodedDict(np, fields);
    SameEntries(v.entries, decoded);
  }

  lemma SameEntries(entries: map<Key, Value>, decoded: map<Key, Value>)
    requires forall k :: k in decoded <==> k in entries
    requires forall k | k in entries :: decoded[k] == Normal(entries[k])
    ensures Dict(decoded) == Normal(Dict(entries))
  {
    assert decoded == map k | k in entries :: Normal(entries[k]);
  }

  /** Whatever can be encoded decodes to the same value, up to tuples and numpy scalars. */
  lemma {:induction false} RoundTrip(np: Numpy, v: Value)
    requires ValidArrays(np, v) && Encode(np, v).Ok?
    ensures Decode(np, Encode(np, v).value) == Ok(Normal(v))
    decreases v, 1
  {
    match v
    case Array(dtype, shape, data) => ArrayRoundTrip(np, dtype, shape, data);
    case NumpyScalar(item) => RoundTrip(np, item);
    case Dict(_) => DictRoundTrip(np, v);
    case Items(items) => ItemsRoundTrip(np, items);
    case Tuple(items) => ItemsRoundTrip(np, items);
    case _ =>
  }

  function Unwrapped(v: Value): Value {
    if v.NumpyScalar? then Unwrapped(v.item) else v
  }

  /** The reserved key makes array objects unambiguous: only an array is encoded as one. */
  lemma {:induction false} OnlyArraysLookLikeArrays(np: Numpy, v: Value)
    requires Encode(np, v).Ok?
    ensures Unwrapped(v).Array? <==> Encode(np, v).value.JObject? && MARKER in Encode(np, v).value.fields
  {
    match v
    case NumpyScalar(item) => OnlyArraysLookLikeArrays(np, item);
    case Dict(_) => DictFields(np, v);
    case _ =>
  }

  // ----- what is encoded and decoded, and what is refused -----

  ghost predicate Encodable(np: Numpy, v: Value) {
    match v
    case Unsupported => false
    case Items(items) => forall i | 0 <= i < |items| :: Encodable(np, items[i])
    case Tuple(items) => forall i | 0 <= i < |items| :: Encodable(np, items[i])
    case Dict(entries) => forall k | k in entries ::
      k.TextKey? && k.text != "__kernelleaf_ndarray__" && Encodable(np, entries[k])
    case Array(dtype, _, data) => np.kind(dtype) in {'b', 'i', 'u', 'f'} && (np.kind(dtype) == 'f' ==> AllFinite(data))
    case NumpyScalar(item) => Encodable(np, item)
    case _ => true
  }

  /** Exactly the text-keyed trees of supported arrays and plain values are encoded. */
  lemma {:induction false} EncodesExactly(np: Numpy, v: Value)
    ensures Encode(np, v).Ok? <==> Encodable(np, v)
    decreases v
  {
    match v
    case Items(items) => AllEncode(np, items);
    case Tuple(items) => AllEncode(np, items);
    case NumpyScalar(item) => EncodesExactly(np, item);
    case Dict(entries) =>
      forall k | k in entries ensures Encode(np, entries[k]).Ok? <==> Encodable(np, entries[k]) {
        EncodesExactly(np, entries[k]);
      }
      if TextKey(MARKER) in entries {
        assert !Encodable(np, v);
      }
    case _ =>
  }

  lemma {:induction false} AllEncode(np: Numpy, items: seq<Value>)
    ensures EncodeAll(np, items).Ok? <==> forall i | 0 <= i < |items| :: Encodable(np, items[i])
    decreases items
  {
    forall i | 0 <= i < |items| ensures Encode(np, items[i]).Ok? <==> Encodable(np, items[i]) {
      EncodesExactly(np, items[i]);
    }
  }

  /** The four members and nothing else, a flat list of as many numbers as the shape holds, a supported type. */
  ghost predicate IsArrayObject(np: Numpy, fields: map<string, Json>, shape: seq<nat>, dtype: string, data: seq<Number>) {
    && fields.Keys == {"__kernelleaf_ndarray__", "dtype", "shape", "data"}
    && fields["__kernelleaf_ndarray__"] == JNum(Flag(true))
    && fields["shape"] == JList(Extents(shape)) && np.parse(fields["dtype"]) == Ok(dtype)
    && np.kind(dtype) in {'b', 'i', 'u', 'f'}
    && fields["data"].JList? && |fields["data"].items| == Product(shape)
    && np.asArray(dtype, fields["data"].items, shape) == Ok(data) && (np.kind(dtype) == 'f' ==> AllFinite(data))
  }

  /** An object with the marker decodes exactly when it is an array's, and then to that array. */
  lemma ArraysDecodeExactly(np: Numpy, fields: map<string, Json>)
    requires "__kernelleaf_ndarray__" in fields
    ensures Decode(np, JObject(fields)).Ok? <==> exists shape, dtype, data :: IsArrayObject(np, fields, shape, dtype, data)
    ensures forall shape, dtype, data | IsArrayObject(np, fields, shape, dtype, data) ::
              Decode(np, JObject(fields)) == Ok(Array(dtype, shape, data))
  {
    assert Decode(np, JObject(fields)) == DecodeArray(np, fields);
    forall shape, dtype, data | IsArrayObject(np, fields, shape, dtype, data)
      ensures DecodeArray(np, fields) == Ok(Array(dtype, shape, data))
    {
      ExtentsDecode(shape);
    }
    if DecodeArray(np, fields).Ok? {
      var a := DecodeArray(np, fields).value;
      assert IsArrayObject(np, fields, a.shape, a.dtype, a.data);
    }
  }

  /** A scalar has one element, and a table as many as rows times columns. */
  lemma ProductExamples(rows: nat, columns: nat)
    ensures Product([]) == 1 && Product([rows, columns]) == rows * columns
  {
    assert [rows, columns][1..] == [columns] && [columns][1..] == [];
    assert Product([columns]) == columns;
  }

  /** The object an array travels as, member by member. */
  lemma ArrayForm(np: Numpy, dtype: string, shape: seq<nat>, data: seq<Number>, j: Json)
    requires Encode(np, Array(dtype, shape, data)) == Ok(j)
    ensures j.JObject? && j.fields.Keys == {"__kernelleaf_ndarray__", "dtype", "shape", "data"}
    ensures j.fields["__kernelleaf_ndarray__"] == JNum(Flag(true)) && j.fields["dtype"] == JText(dtype)
    ensures var shape_, data_ := j.fields["shape"], j.fields["data"];
      && shape_.JList? && |shape_.items| == |shape|
      && (forall i | 0 <= i < |shape| :: shape_.items[i] == JNum(Whole(shape[i])))
      && data_.JList? && |data_.items| == |data| && (forall i | 0 <= i < |data| :: data_.items[i] == JNum(data[i]))
    ensures np.kind(dtype) in {'b', 'i', 'u', 'f'} && (np.kind(dtype) == 'f' ==> AllFinite(data))
  {
    assert Encode(np, Array(dtype, shape, data)) == EncodeArray(np, dtype, shape, data);
  }

  // ----- messages over the wire -----

  /** JSON text as bytes: printing may refuse a tree. */
  datatype JsonText = JsonText(print_: Json -> Result<seq<byte>>, parse: seq<byte> -> Result<Json>)

  /** No number that is not finite is printed, and what is printed parses to itself. */
  ghost predicate Faithful(text: JsonText) {
    forall j: Json | text.print_(j).Ok? :: FiniteTree(j) && text.parse(text.print_(j).value) == Ok(j)
  }

  ghost predicate PrintsAllFinite(text: JsonText) {
    forall j: Json | FiniteTree(j) :: text.print_(j).Ok?
  }

  ghost function PrintCompact(j: Json): Result<seq<byte>> {
    if FiniteTree(j) then Ok(Utf8.Encode(Print(j))) else CodecError
  }

  function ParseCompact(payload: seq<byte>): Result<Json> {
    match Utf8.Decode(payload)
    case Invalid => CodecError
    case Decoded(text) =>
      match Parse(text)
      case Stuck => CodecError
      case Parsed(j, _) => Ok(j)
  }

  /** Compact text with sorted keys, in UTF-8. */
  ghost function CompactText(): JsonText {
    JsonText(j => PrintCompact(j), payload => ParseCompact(payload))
  }

  lemma CompactTextIsFaithful()
    ensures Faithful(CompactText()) && PrintsAllFinite(CompactText())
  {
    forall j: Json | FiniteTree(j) ensures ParseCompact(PrintCompact(j).value) == Ok(j) {
      Utf8.DecodeEncode(Print(j));
      TextRoundTrip(j);
    }
  }

  function EncodeMessage(np: Numpy, text: JsonText, v: Value): Result<seq<byte>> {
    var j := Encode(np, v);
    if j.Ok? then text.print_(j.value) else CodecError
  }

  function DecodeMessage(np: Numpy, text: JsonText, payload: seq<byte>): Result<Value> {
    var j := text.parse(payload);
    if j.Ok? then Decode(np, j.value) else CodecError
  }

  ghost predicate Transmits(np: Numpy, text: JsonText, limit: int, v: Value, payload: seq<byte>) {
    ValidArrays(np, v) && EncodeMessage(np, text, v) == Ok(payload) && PackFrame(payload, limit).Payload?
  }

  /** Messages encoded, framed, concatenated and cut up in any way arrive as the same messages. */
  lemma MessagesArrive(np: Numpy, text: JsonText, limit: int, values: seq<Value>, payloads: seq<seq<byte>>)
    requires Faithful(text) && |values| == |payloads|
    requires forall i | 0 <= i < |values| :: Transmits(np, text, limit, values[i], payloads[i])
    ensures Sendable(payloads, limit)
    ensures var got := ReadFrames(Stream(payloads, limit), limit, |values|);
            && |got| == |values|
            && forall i | 0 <= i < |values| :: DecodeMessage(np, text, got[i]) == Ok(Normal(values[i]))
  {
    forall i | 0 <= i < |payloads| ensures PackFrame(payloads[i], limit).Payload? {
      assert Transmits(np, text, limit, values[i], payloads[i]);
    }
    FramesRoundTrip(payloads, limit);
    forall i | 0 <= i < |values| ensures DecodeMessage(np, text, payloads[i]) == Ok(Normal(values[i])) {
      assert Transmits(np, text, limit, values[i], payloads[i]);
      RoundTrip(np, values[i]);
    }
  }

  /** With compact text a message can be sent exactly when it has a tree, finite and short enough. */
  lemma SendsExactly(np: Numpy, limit: int, v: Value)
    ensures EncodeMessage(np, CompactText(), v).Ok? <==> Encode(np, v).Ok? && FiniteTree(Encode(np, v).value)
    ensures EncodeMessage(np, CompactText(), v).Ok? ==>
      var payload := EncodeMessage(np, CompactText(), v).value;
      payload != [] && (PackFrame(payload, limit).Payload? <==> ValidLimit(limit) && |payload| <= limit)
  {
    if EncodeMessage(np, CompactText(), v).Ok? {
      PrintStarts(Encode(np, v).value);
    }
    hide Encode, Print, Header;
  }

  /** Whatever compact text can send arrives, with no assumption about the text. */
  lemma CompactMessagesArrive(np: Numpy, limit: int, values: seq<Value>, payloads: seq<seq<byte>>)
    requires |values| == |payloads|
    requires forall i | 0 <= i < |values| :: Transmits(np, CompactText(), limit, values[i], payloads[i])
    ensures Sendable(payloads, limit)
    ensures var got := ReadFrames(Stream(payloads, limit), limit, |values|);
            && |got| == |values|
            && forall i | 0 <= i < |values| :: DecodeMessage(np, CompactText(), got[i]) == Ok(Normal(values[i]))
  {
    CompactTextIsFaithful();
    MessagesArrive(np, CompactText(), limit, values, payloads);
  }

  // ----- an instance of what is asked of numpy -----

  predicate AllNumbers(items: seq<Json>) {
    forall i | 0 <= i < |items| :: items[i].JNum?
  }

  function AsGiven(items: seq<Json>): Result<seq<Number>> {
    if AllNumbers(items) then Ok(seq(|items|, i requires 0 <= i < |items| => items[i].number)) else CodecError
  }

  /** Type names stand for themselves and numbers are taken as they come. */
  function PlainNumpy(kind: string -> char): Numpy {
    Numpy((j: Json) => if j.JText? then Ok(j.text) else CodecError, kind, (_, items, _) => AsGiven(items))
  }

  /** Then every array whose data fills its shape is valid. */
  lemma PlainArraysAreValid(kind: string -> char, dtype: string, shape: seq<nat>, data: seq<Number>)
    ensures ValidArray(PlainNumpy(kind), dtype, shape, data) <==> |data| == Product(shape)
  {
    assert AsGiven(Numbers(data)).value == data;
  }
}
