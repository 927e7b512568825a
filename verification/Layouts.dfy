/** The generic record layouts shared by both sides of the wire: offsets, packing, unpacking. */
module Layouts {
  import opened Words

  datatype FieldType = U8 | I8 | U16 | I16 | U32 | I32 | Bytes6 | Bytes16 | Bytes32 {
    function Size(): nat {
      match this
      case U8 => 1
      case I8 => 1
      case U16 => 2
      case I16 => 2
      case U32 => 4
      case I32 => 4
      case Bytes6 => 6
      case Bytes16 => 16
      case Bytes32 => 32
    }

    predicate IsBytes() {
      Bytes6? || Bytes16? || Bytes32?
    }
  }

  datatype Field = Field(name: string, kind: FieldType)

  // --- Reading the JSON description -----------------------------------------

  /** One JSON object of a layout; `None` stands for an absent or non-string entry. */
  datatype RawField = RawField(name: Option<string>, typeName: Option<string>)

  datatype LayoutFault = MissingName | UnsupportedType | DuplicateName

  datatype LayoutSummary = LayoutSummary(size: nat, offsets: map<string, nat>)

  const TYPE_NAMES: seq<(string, FieldType)> := [
    ("u8", U8), ("i8", I8), ("u16", U16), ("i16", I16), ("u32", U32), ("i32", I32),
    ("bytes6", Bytes6), ("bytes16", Bytes16), ("bytes32", Bytes32)
  ]

  function Lookup(table: seq<(string, FieldType)>, name: string): Option<FieldType> {
    if table == [] then None
    else if table[0].0 == name then Some(table[0].1)
    else Lookup(table[1..], name)
  }

  function ParseType(typeName: Option<string>): Option<FieldType> {
    if typeName.None? then None else Lookup(TYPE_NAMES, typeName.value)
  }

  /** What is wrong with entry `i`, in the order the validator looks. */
  function FaultAt(layout: seq<RawField>, i: nat): Option<LayoutFault>
    requires i < |layout|
  {
    if layout[i].name.None? || layout[i].name.value == "" then Some(MissingName)
    else if ParseType(layout[i].typeName).None? then Some(UnsupportedType)
    else if exists j :: 0 <= j < i && layout[j].name == layout[i].name then Some(DuplicateName)
    else None
  }

  predicate Sound(layout: seq<RawField>) {
    forall i :: 0 <= i < |layout| ==> FaultAt(layout, i).None?
  }

  /** The types a layout may name. */
  predicate KnownType(typeName: Option<string>) {
    typeName.Some? && typeName.value in ["u8", "i8", "u16", "i16", "u32", "i32", "bytes6", "bytes16", "bytes32"]
  }

  lemma {:induction false} LookupFinds(table: seq<(string, FieldType)>, name: string) returns (k: nat)
    requires Lookup(table, name).Some?
    ensures k < |table| && table[k].0 == name
  {
    if table[0].0 == name {
      k := 0;
    } else {
      k := LookupFinds(table[1..], name);
      k := k + 1;
    }
  }

  lemma {:induction false} LookupFound(table: seq<(string, FieldType)>, k: nat)
    requires k < |table|
    ensures Lookup(table, table[k].0).Some?
  {
    if table[0].0 != table[k].0 {
      LookupFound(table[1..], k - 1);
    }
  }

  lemma TypesAre(typeName: Option<string>)
    ensures ParseType(typeName).Some? <==> KnownType(typeName)
  {
    var names := ["u8", "i8", "u16", "i16", "u32", "i32", "bytes6", "bytes16", "bytes32"];
    assert |TYPE_NAMES| == |names| && forall k :: 0 <= k < |names| ==> TYPE_NAMES[k].0 == names[k];
    if ParseType(typeName).Some? {
      var k := LookupFinds(TYPE_NAMES, typeName.value);
      assert names[k] == typeName.value;
    }
    if KnownType(typeName) {
      var k :| 0 <= k < |names| && names[k] == typeName.value;
      LookupFound(TYPE_NAMES, k);
    }
  }

  lemma FaultlessAt(layout: seq<RawField>, i: nat)
    requires i < |layout|
    ensures FaultAt(layout, i).None? <==>
            && layout[i].name.Some? && layout[i].name.value != "" && KnownType(layout[i].typeName)
            && forall j :: 0 <= j < i ==> layout[j].name != layout[i].name
  {
    TypesAre(layout[i].typeName);
  }

  /** A layout is sound exactly if every field has a name of its own, not an empty one, and a known type. */
  lemma SoundIff(layout: seq<RawField>)
    ensures Sound(layout) <==>
            && (forall i :: 0 <= i < |layout| ==> layout[i].name.Some? && layout[i].name.value != "" && KnownType(layout[i].typeName))
            && (forall i, j :: 0 <= j < i < |layout| ==> layout[j].name != layout[i].name)
  {
    forall i | 0 <= i < |layout|
      ensures FaultAt(layout, i).None? <==>
              && layout[i].name.Some? && layout[i].name.value != "" && KnownType(layout[i].typeName)
              && forall j :: 0 <= j < i ==> layout[j].name != layout[i].name
    {
      FaultlessAt(layout, i);
    }
  }

  /** The typed fields of a sound layout. */
  function Typed(layout: seq<RawField>): (fields: seq<Field>)
    requires Sound(layout)
    ensures |fields| == |layout|
  {
    seq(|layout|, i requires 0 <= i < |layout| && FaultAt(layout, i).None? =>
      Field(layout[i].name.value, ParseType(layout[i].typeName).value))
  }

  // --- Offsets -----------------------------------------------------------------

  function Offset(fields: seq<Field>, n: nat): nat
    requires n <= |fields|
  {
    if n == 0 then 0 else Offset(fields, n - 1) + fields[n - 1].kind.Size()
  }

  function Size(fields: seq<Field>): nat {
    Offset(fields, |fields|)
  }

  predicate Distinct(fields: seq<Field>) {
    forall i, j :: 0 <= i < j < |fields| ==> fields[i].name != fields[j].name
  }

  /** `offset` and `offsets` lay out `fields` back to back under distinct names. */
  ghost predicate LaidOut(fields: seq<Field>, offset: nat, offsets: map<string, nat>) {
    && Distinct(fields)
    && offset == Size(fields)
    && offsets.Keys == NamesOf(fields)
    && (forall j {:trigger offsets[fields[j].name]} :: 0 <= j < |fields| ==> fields[j].name in offsets && offsets[fields[j].name] == Offset(fields, j))
  }

  lemma LaidOutGrows(fields: seq<Field>, offset: nat, offsets: map<string, nat>, f: Field)
    requires LaidOut(fields, offset, offsets) && f.name !in offsets
    ensures LaidOut(fields + [f], offset + f.kind.Size(), offsets[f.name := offset])
  {
    var grown, more := fields + [f], offsets[f.name := offset];
    OffsetPrefix(fields, grown, |fields|);
    forall j {:trigger more[grown[j].name]} | 0 <= j < |grown|
      ensures grown[j].name in more && more[grown[j].name] == Offset(grown, j)
    {
      if j < |fields| {
        assert grown[j] == fields[j];
        OffsetPrefix(fields, grown, j);
      }
    }
    NamesGrow(fields, f);
  }

  lemma NamesGrow(fields: seq<Field>, f: Field)
    ensures NamesOf(fields + [f]) == NamesOf(fields) + {f.name}
  {
    var grown := fields + [f];
    assert grown[|fields|] == f;
    assert forall j :: 0 <= j < |fields| ==> grown[j] == fields[j];
  }

  ghost function NamesOf(fields: seq<Field>): set<string> {
    set j | 0 <= j < |fields| :: fields[j].name
  }

  /** `fields` are the typed forms of the first entries of `layout`. */
  predicate Parsed(layout: seq<RawField>, fields: seq<Field>) {
    && |fields| <= |layout|
    && forall j :: 0 <= j < |fields| ==>
         layout[j].name == Some(fields[j].name) && ParseType(layout[j].typeName) == Some(fields[j].kind)
  }

  /**
   * Validate one layout and lay its fields out back to back. Succeeds exactly on sound
   * layouts; otherwise reports the first faulty entry.
   */
  method LayoutDetails(layout: seq<RawField>) returns (r: Result<LayoutSummary, LayoutFault>)
    ensures r.Success? <==> Sound(layout)
    ensures r.Success? ==> LaidOut(Typed(layout), r.value.size, r.value.offsets)
    ensures r.Failure? ==>
              exists i ::
                && 0 <= i < |layout|
                && FaultAt(layout, i) == Some(r.error)
                && forall j :: 0 <= j < i ==> FaultAt(layout, j).None?
  {
    var offset: nat := 0;
    var offsets: map<string, nat> := map[];
    ghost var fields: seq<Field> := [];
    assert NamesOf(fields) == {};
    var i := 0;
    while i < |layout|
      invariant 0 <= i <= |layout| && |fields| == i
      invariant forall j :: 0 <= j < i ==> FaultAt(layout, j).None?
      invariant Parsed(layout, fields)
      invariant LaidOut(fields, offset, offsets)
    {
      var name, kind := layout[i].name, ParseType(layout[i].typeName);
      if name.None? || name.value == "" {
        assert FaultAt(layout, i) == Some(MissingName);
        return Failure(MissingName);
      }
      if kind.None? {
        assert FaultAt(layout, i) == Some(UnsupportedType);
        return Failure(UnsupportedType);
      }
      if name.value in offsets {
        assert FaultAt(layout, i) == Some(DuplicateName);
        return Failure(DuplicateName);
      }
      LaidOutGrows(fields, offset, offsets, Field(name.value, kind.value));
      offsets := offsets[name.value := offset];
      offset := offset + kind.value.Size();
      fields := fields + [Field(name.value, kind.value)];
      i := i + 1;
    }
    assert fields == Typed(layout);
    r := Success(LayoutSummary(offset, offsets));
  }

  lemma {:induction false} OffsetPrefix(a: seq<Field>, b: seq<Field>, n: nat)
    requires n <= |a| && a <= b
    ensures Offset(a, n) == Offset(b, n)
  {
    if n > 0 {
      OffsetPrefix(a, b, n - 1);
    }
  }

  lemma {:induction false} OffsetMonotone(fields: seq<Field>, i: nat, j: nat)
    requires i <= j <= |fields|
    ensures Offset(fields, i) <= Offset(fields, j)
    decreases j - i
  {
    if i < j {
      OffsetMonotone(fields, i, j - 1);
    }
  }

  predicate Covers(fields: seq<Field>, i: int, b: int) {
    0 <= i < |fields| && Offset(fields, i) <= b < Offset(fields, i + 1)
  }

  /** The fields tile the record: every byte lies in exactly one of them. */
  lemma Tiling(fields: seq<Field>, b: nat)
    requires b < Size(fields)
    ensures exists i :: Covers(fields, i, b)
    ensures forall i, j :: Covers(fields, i, b) && Covers(fields, j, b) ==> i == j
  {
    var i := CoveringField(fields, |fields|, b);
    assert Covers(fields, i, b);
    forall i, j | Covers(fields, i, b) && Covers(fields, j, b)
      ensures i == j
    {
      if i < j {
        OffsetMonotone(fields, i + 1, j);
      } else if j < i {
        OffsetMonotone(fields, j + 1, i);
      }
    }
  }

  lemma {:induction false} CoveringField(fields: seq<Field>, n: nat, b: nat) returns (i: nat)
    requires n <= |fields| && b < Offset(fields, n)
    ensures i < n && Covers(fields, i, b)
  {
    if Offset(fields, n - 1) <= b {
      i := n - 1;
    } else {
      i := CoveringField(fields, n - 1, b);
    }
  }

  // --- One field -------------------------------------------------------------------

  datatype Value = Int(n: int) | Bytes(data: seq<u8>)

  /** Python's `struct` accepts `value` for this field code. */
  predicate Packable(kind: FieldType, value: Value) {
    if kind.IsBytes() then value.Bytes? else value.Int? && InRange(kind, value.n)
  }

  predicate InRange(kind: FieldType, n: int) {
    match kind
    case U8 => 0 <= n < 0x100
    case I8 => -0x80 <= n < 0x80
    case U16 => 0 <= n < 0x1_0000
    case I16 => -0x8000 <= n < 0x8000
    case U32 => 0 <= n < 0x1_0000_0000
    case I32 => -0x8000_0000 <= n < 0x8000_0000
    case _ => false
  }

  /** A value the field holds without padding or truncation. */
  predicate Exact(kind: FieldType, value: Value) {
    Packable(kind, value) && (value.Bytes? ==> |value.data| == kind.Size())
  }

  function PadTo(data: seq<u8>, n: nat): (r: seq<u8>)
    ensures |r| == n
    ensures |data| == n ==> r == data
  {
    if |data| >= n then data[..n] else data + seq(n - |data|, _ => 0)
  }

  /** The field's bytes; signed integers are stored in two's complement. */
  function EncodeField(kind: FieldType, value: Value): (b: seq<u8>)
    requires Packable(kind, value)
    ensures |b| == kind.Size()
  {
    match kind
    case U8 => [value.n]
    case I8 => [value.n % 0x100]
    case U16 => U16Bytes(value.n)
    case I16 => U16Bytes(value.n % TWO16)
    case U32 => U32Bytes(value.n)
    case I32 => U32Bytes(value.n % TWO32)
    case Bytes6 => PadTo(value.data, 6)
    case Bytes16 => PadTo(value.data, 16)
    case Bytes32 => PadTo(value.data, 32)
  }

  function DecodeField(kind: FieldType, b: seq<u8>): (value: Value)
    requires |b| == kind.Size()
    ensures Exact(kind, value)
  {
    match kind
    case U8 => Int(b[0])
    case I8 => Int(if b[0] < 0x80 then b[0] else (b[0] as int) - 0x100)
    case U16 => Int(ReadU16(b))
    case I16 => Int(ReadI16(b))
    case U32 => Int(ReadU32(b))
    case I32 => Int(if ReadU32(b) < 0x8000_0000 then ReadU32(b) else ReadU32(b) - TWO32)
    case Bytes6 => Bytes(b)
    case Bytes16 => Bytes(b)
    case Bytes32 => Bytes(b)
  }

  /** Numbers come back as they were; byte values come back padded with zeros or cut to the field's size. */
  lemma FieldRoundTrip(kind: FieldType, value: Value)
    requires Packable(kind, value)
    ensures var back := DecodeField(kind, EncodeField(kind, value));
            if value.Int? then back == value
            else
              back.Bytes? && |back.data| == kind.Size()
              && forall k :: 0 <= k < kind.Size() ==> back.data[k] == if k < |value.data| then value.data[k] else 0
    ensures Exact(kind, value) ==> DecodeField(kind, EncodeField(kind, value)) == value
  {
    match kind
    case U8 =>
    case I8 =>
    case U16 => U16RoundTrip(value.n);
    case I16 => I16RoundTrip(value.n);
    case U32 => U32RoundTrip(value.n);
    case I32 => I32RoundTrip(value);
    case _ =>
  }

  lemma I32RoundTrip(value: Value)
    requires Exact(I32, value)
    ensures DecodeField(I32, EncodeField(I32, value)) == value
  {
    var u: u32 := value.n % TWO32;
    SignedAgain(value.n);
    U32RoundTrip(u);
    assert EncodeField(I32, value) == U32Bytes(u);
  }

  /** Converting a signed value to a 32-bit pattern and reinterpreting that is the identity. */
  lemma SignedAgain(n: int)
    requires InRange(I32, n)
    ensures n % TWO32 == if n < 0 then n + TWO32 else n
  {
  }

  lemma FieldImageRoundTrip(kind: FieldType, b: seq<u8>)
    requires |b| == kind.Size()
    ensures EncodeField(kind, DecodeField(kind, b)) == b
  {
    match kind
    case U16 => U16ImageRoundTrip(b);
    case I16 => I16ImageRoundTrip(b);
    case U32 => U32ImageRoundTrip(b);
    case I32 => U32ImageRoundTrip(b); UnsignedAgain(ReadU32(b));
    case _ =>
  }

  /** Reinterpreting a 32-bit pattern as signed and converting back is the identity. */
  lemma UnsignedAgain(u: u32)
    ensures (if u < 0x8000_0000 then u else u - TWO32) % TWO32 == u
  {
  }

  // --- Whole records ------------------------------------------------------------------

  predicate AllPackable(fields: seq<Field>, values: seq<Value>) {
    |values| == |fields| && forall i :: 0 <= i < |fields| ==> Packable(fields[i].kind, values[i])
  }

  predicate AllExact(fields: seq<Field>, values: seq<Value>) {
    |values| == |fields| && forall i :: 0 <= i < |fields| ==> Exact(fields[i].kind, values[i])
  }

  /** One image per field. */
  function Images(fields: seq<Field>, values: seq<Value>): (parts: seq<seq<u8>>)
    requires AllPackable(fields, values)
    ensures Fitting(fields, parts)
    ensures forall i :: 0 <= i < |fields| ==> parts[i] == EncodeField(fields[i].kind, values[i])
  {
    seq(|fields|, i requires 0 <= i < |fields| => EncodeField(fields[i].kind, values[i]))
  }

  predicate Fitting(fields: seq<Field>, parts: seq<seq<u8>>) {
    |parts| == |fields| && forall i :: 0 <= i < |fields| ==> |parts[i]| == fields[i].kind.Size()
  }

  /** The first `n` parts back to back. */
  function Join(parts: seq<seq<u8>>, n: nat): seq<u8>
    requires n <= |parts|
  {
    if n == 0 then [] else Join(parts, n - 1) + parts[n - 1]
  }

  lemma {:induction false} JoinLength(fields: seq<Field>, parts: seq<seq<u8>>, n: nat)
    requires Fitting(fields, parts) && n <= |fields|
    ensures |Join(parts, n)| == Offset(fields, n)
  {
    if n > 0 {
      JoinLength(fields, parts, n - 1);
    }
  }

  function Pack(fields: seq<Field>, values: seq<Value>): (b: seq<u8>)
    requires AllPackable(fields, values)
    ensures |b| == Size(fields)
  {
    var parts := Images(fields, values);
    JoinLength(fields, parts, |fields|);
    Join(parts, |fields|)
  }

  /** The bytes of field `i` inside a record image. */
  function Slot(fields: seq<Field>, b: seq<u8>, i: nat): (s: seq<u8>)
    requires |b| == Size(fields) && i < |fields|
    ensures |s| == fields[i].kind.Size()
  {
    OffsetMonotone(fields, i + 1, |fields|);
    b[Offset(fields, i)..Offset(fields, i + 1)]
  }

  function Unpack(fields: seq<Field>, b: seq<u8>): (values: seq<Value>)
    requires |b| == Size(fields)
    ensures AllExact(fields, values)
  {
    seq(|fields|, i requires 0 <= i < |fields| => DecodeField(fields[i].kind, Slot(fields, b, i)))
  }

  lemma {:induction false} JoinedSlot(fields: seq<Field>, parts: seq<seq<u8>>, n: nat, i: nat)
    requires Fitting(fields, parts) && i < n <= |fields|
    ensures Offset(fields, i) <= Offset(fields, i + 1) <= Offset(fields, n) == |Join(parts, n)|
    ensures Join(parts, n)[Offset(fields, i)..Offset(fields, i + 1)] == parts[i]
  {
    JoinLength(fields, parts, n);
    JoinLength(fields, parts, n - 1);
    if i < n - 1 {
      JoinedSlot(fields, parts, n - 1, i);
      var low, high := Offset(fields, i), Offset(fields, i + 1);
      assert Join(parts, n)[low..high] == Join(parts, n - 1)[low..high];
    }
  }

  lemma SlotsDetermine(fields: seq<Field>, parts: seq<seq<u8>>, b: seq<u8>)
    requires Fitting(fields, parts) && |b| == Size(fields)
    requires forall i :: 0 <= i < |fields| ==> Slot(fields, b, i) == parts[i]
    ensures b == Join(parts, |fields|)
  {
    JoinLength(fields, parts, |fields|);
    var p := Join(parts, |fields|);
    forall k | 0 <= k < |b|
      ensures b[k] == p[k]
    {
      var i := CoveringField(fields, |fields|, k);
      JoinedSlot(fields, parts, |fields|, i);
      SlotByte(fields, b, i, k);
      SlotByte(fields, p, i, k);
    }
  }

  lemma SlotByte(fields: seq<Field>, b: seq<u8>, i: nat, k: nat)
    requires |b| == Size(fields) && k < |b| && Covers(fields, i, k)
    ensures 0 <= k - Offset(fields, i) < |Slot(fields, b, i)|
    ensures Slot(fields, b, i)[k - Offset(fields, i)] == b[k]
  {
    OffsetMonotone(fields, i + 1, |fields|);
    var low, high := Offset(fields, i), Offset(fields, i + 1);
    assert low <= k < high <= |b|;
    assert b[low..high][k - low] == b[k];
  }

  /** A record image is determined by its field slots, so the order of writing is immaterial. */
  lemma ImageDetermined(fields: seq<Field>, values: seq<Value>, b: seq<u8>)
    requires AllPackable(fields, values) && |b| == Size(fields)
    requires forall i :: 0 <= i < |fields| ==> Slot(fields, b, i) == EncodeField(fields[i].kind, values[i])
    ensures b == Pack(fields, values)
  {
    SlotsDetermine(fields, Images(fields, values), b);
  }

  /** Field `i` of a packed record holds exactly that field's image. */
  lemma PackedSlot(fields: seq<Field>, values: seq<Value>, i: nat)
    requires AllPackable(fields, values) && i < |fields|
    ensures Slot(fields, Pack(fields, values), i) == EncodeField(fields[i].kind, values[i])
  {
    JoinedSlot(fields, Images(fields, values), |fields|, i);
  }

  lemma UnpackPack(fields: seq<Field>, values: seq<Value>)
    requires AllExact(fields, values)
    ensures Unpack(fields, Pack(fields, values)) == values
  {
    var b := Pack(fields, values);
    forall i | 0 <= i < |fields|
      ensures Unpack(fields, b)[i] == values[i]
    {
      PackedSlot(fields, values, i);
      FieldRoundTrip(fields[i].kind, values[i]);
    }
  }

  lemma PackUnpack(fields: seq<Field>, b: seq<u8>)
    requires |b| == Size(fields)
    ensures Pack(fields, Unpack(fields, b)) == b
  {
    forall i | 0 <= i < |fields|
      ensures Slot(fields, b, i) == EncodeField(fields[i].kind, Unpack(fields, b)[i])
    {
      FieldImageRoundTrip(fields[i].kind, Slot(fields, b, i));
    }
    ImageDetermined(fields, Unpack(fields, b), b);
  }

  // --- Keyword packing and dictionary unpacking -----------------------------------------

  datatype CodecError = MissingField | BadValue | WrongLength

  predicate Supplied(fields: seq<Field>, values: map<string, Value>) {
    forall i :: 0 <= i < |fields| ==> fields[i].name in values
  }

  function Ordered(fields: seq<Field>, values: map<string, Value>): (ordered: seq<Value>)
    requires Supplied(fields, values)
    ensures |ordered| == |fields|
    ensures forall i :: 0 <= i < |fields| ==> ordered[i] == values[fields[i].name]
  {
    seq(|fields|, i requires 0 <= i < |fields| => values[fields[i].name])
  }

  /** `_pack_layout`: a missing keyword is reported before any value is looked at. */
  function PackLayout(fields: seq<Field>, values: map<string, Value>): Result<seq<u8>, CodecError> {
    if !Supplied(fields, values) then Failure(MissingField)
    else if !AllPackable(fields, Ordered(fields, values)) then Failure(BadValue)
    else Success(Pack(fields, Ordered(fields, values)))
  }

  /** `_unpack_layout`: names zipped with the unpacked values (a later duplicate name wins). */
  function Zip(fields: seq<Field>, values: seq<Value>, n: nat): map<string, Value>
    requires n <= |fields| == |values|
  {
    if n == 0 then map[] else Zip(fields, values, n - 1)[fields[n - 1].name := values[n - 1]]
  }

  function UnpackLayout(fields: seq<Field>, b: seq<u8>): Result<map<string, Value>, CodecError> {
    if |b| != Size(fields) then Failure(WrongLength)
    else Success(Zip(fields, Unpack(fields, b), |fields|))
  }

  lemma {:induction false} ZipAt(fields: seq<Field>, values: seq<Value>, n: nat)
    requires n <= |fields| == |values| && Distinct(fields)
    ensures forall name :: name in Zip(fields, values, n) ==> exists i :: 0 <= i < n && fields[i].name == name
    ensures forall i :: 0 <= i < n ==> fields[i].name in Zip(fields, values, n)
    ensures forall i :: 0 <= i < n ==> Zip(fields, values, n)[fields[i].name] == values[i]
  {
    if n > 0 {
      ZipAt(fields, values, n - 1);
    }
  }

  /**
   * Packing fails for want of a keyword exactly when one is missing; otherwise, packing then unpacking
   * returns every keyword of the layout, and nothing else, unchanged.
   */
  lemma KeywordRoundTrip(fields: seq<Field>, values: map<string, Value>)
    requires Distinct(fields)
    ensures PackLayout(fields, values) == Failure(MissingField) <==> exists i :: 0 <= i < |fields| && fields[i].name !in values
    ensures Supplied(fields, values) && AllExact(fields, Ordered(fields, values)) ==>
              && PackLayout(fields, values).Success?
              && UnpackLayout(fields, PackLayout(fields, values).value).Success?
              && Returned(fields, values, UnpackLayout(fields, PackLayout(fields, values).value).value)
  {
    if Supplied(fields, values) && AllExact(fields, Ordered(fields, values)) {
      var ordered := Ordered(fields, values);
      UnpackPack(fields, ordered);
      ZipAt(fields, ordered, |fields|);
    }
  }

  /** The dictionary holds the layout's keywords, with the values given, and no others. */
  predicate Returned(fields: seq<Field>, values: map<string, Value>, back: map<string, Value>) {
    && Supplied(fields, back)
    && forall name :: name in back ==>
         && (exists i :: 0 <= i < |fields| && fields[i].name == name)
         && name in values && back[name] == values[name]
  }

  /** Unpacking then packing restores the image. */
  lemma ImageRoundTrip(fields: seq<Field>, b: seq<u8>)
    requires Distinct(fields) && |b| == Size(fields)
    ensures UnpackLayout(fields, b).Success?
    ensures PackLayout(fields, UnpackLayout(fields, b).value) == Success(b)
  {
    var values := Unpack(fields, b);
    ZipAt(fields, values, |fields|);
    assert Ordered(fields, Zip(fields, values, |fields|)) == values;
    PackUnpack(fields, b);
  }
}
