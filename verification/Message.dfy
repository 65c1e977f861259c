// The binary message codec: encoding and decoding recursive messages against a layout.
module Messages {
  import opened Bytes
  import opened Layouts

  /**
   * A message value. A Struct has a type number of at least STRUCT and its fields by name.
   * A Hollow value has a type number below STRUCT and no data: number 0 is the undefined message, the
   * others only arise from decoding.
   */
  datatype Msg =
    | Int(i: int32)
    | Str(s: seq<byte>)
    | Arr(elems: seq<Msg>)
    | Struct(ty: nat, fields: map<string, Msg>)
    | Hollow(ty: nat)
  {
    function Type(): nat {
      match this
      case Int(_) => INT
      case Str(_) => STRING
      case Arr(_) => ARRAY
      case Struct(ty, _) => ty
      case Hollow(ty) => ty
    }
  }

  /** The layout handed on to the value of a field. */
  function Kids(f: Field): Layout {
    if f.ArrayField? then f.fields else []
  }

  // ----- encoding -----

  /** getBinaryMessage with an explicit layout; `kids` are the child layouts. */
  function Encode(m: Msg, kids: Layout): Result<seq<byte>>
    decreases m, 2
  {
    match m
    case Int(i) => Ok([INT] + Le32(i))
    case Str(s) => if |s| > 0x1_0000 then Err(StringTooBig) else Ok([STRING] + Le16(|s|) + s)
    case Arr(elems) =>
      var body :- EncodeElems(elems, kids);
      Ok([ARRAY, |elems| % 256] + body)
    case Struct(ty, _) =>
      var body :- EncodeFields(m, kids);
      Ok([ty % 256] + body)
    case Hollow(ty) => if ty == 0 && kids == [] then Ok([0]) else Err(NullData)
  }

  function EncodeElems(elems: seq<Msg>, kids: Layout): Result<seq<byte>>
    decreases elems
  {
    if elems == [] then Ok([]) else
    var first :- Encode(elems[0], kids);
    var others :- EncodeElems(elems[1..], kids);
    Ok(first + others)
  }

  function EncodeFields(m: Msg, kids: Layout): Result<seq<byte>>
    requires m.Struct?
    decreases m, 1, |kids|
  {
    if kids == [] then Ok([]) else
    var first :- EncodeField(m, kids[0]);
    var others :- EncodeFields(m, kids[1..]);
    Ok(first + others)
  }

  function EncodeField(m: Msg, f: Field): Result<seq<byte>>
    requires m.Struct?
    decreases m, 0
  {
    if f.name !in m.fields then Err(FieldNotSet)
    else if f.UnsetField? then Err(UnsetType)
    else if m.fields[f.name].Type() != f.Code() then Err(FieldTypeMismatch)
    else Encode(m.fields[f.name], Kids(f))
  }

  // ----- decoding -----

  /** What a decoding step leaves: the value read and the bytes not yet read. */
  datatype Read<+T> = Read(value: T, rest: seq<byte>)

  /** readMessage with an explicit layout. The type byte is taken as it comes. */
  function DecodeMsg(kids: Layout, bs: seq<byte>): Result<Read<Msg>>
    decreases kids, 2
  {
    if bs == [] then Err(Overrun) else
    var r :- DecodeFields(bs[0], map[], kids, bs[1..]);
    Ok(Read(Assemble(bs[0], r.value), r.rest))
  }

  /** The message left behind by a type byte and the fields assigned afterwards. */
  function Assemble(ty: byte, fields: map<string, Msg>): Msg {
    if ty < STRUCT then Hollow(ty) else Struct(ty, fields)
  }

  function DecodeFields(ty: byte, acc: map<string, Msg>, kids: Layout, bs: seq<byte>): Result<Read<map<string, Msg>>>
    decreases kids, 1
  {
    if kids == [] then Ok(Read(acc, bs)) else
    var v :- DecodeField(kids[0], bs);
    if ty < STRUCT then Err(NotAStruct) else
    DecodeFields(ty, acc[kids[0].name := v.value], kids[1..], v.rest)
  }

  /** A type byte that must match the layout, then the value. */
  function DecodeField(f: Field, bs: seq<byte>): Result<Read<Msg>>
    decreases f, 4
  {
    if bs == [] then Err(Overrun)
    else if f.UnsetField? then Err(UnsetType)
    else if bs[0] != f.Code() then Err(UnexpectedType)
    else match f
      case IntField(_) =>
        if |bs| < 5 then Err(Overrun) else Ok(Read(Int(FromLe32(bs[1..5])), bs[5..]))
      case StringField(_) =>
        if |bs| < 3 then Err(Overrun) else
        var n := FromLe16(bs[1..3]);
        if |bs| < 3 + n then Err(Overrun) else Ok(Read(Str(bs[3..3 + n]), bs[3 + n..]))
      case ArrayField(_, fields) =>
        if |bs| < 2 then Err(Overrun) else
        var r :- DecodeElems(bs[1], fields, bs[2..]);
        Ok(Read(Arr(r.value), r.rest))
  }

  function DecodeElems(n: nat, kids: Layout, bs: seq<byte>): Result<Read<seq<Msg>>>
    decreases kids, 3, n
  {
    if n == 0 then Ok(Read([], bs)) else
    var first :- DecodeMsg(kids, bs);
    var others :- DecodeElems(n - 1, kids, first.rest);
    Ok(Read([first.value] + others.value, others.rest))
  }

  // ----- what survives the wire -----

  /**
   * The messages that fit the wire format: every layout field is set with the right type, a string has at most
   * 65535 bytes, an array at most 255 elements, and a type number fits its byte.
   */
  ghost predicate Fits(m: Msg, kids: Layout)
    decreases m, 1
  {
    if m.Struct? then STRUCT <= m.ty < 256 && forall f :: f in kids ==> FieldFits(m, f)
    else m == Hollow(0) && kids == []
  }

  ghost predicate FieldFits(m: Msg, f: Field)
    requires m.Struct?
    decreases m, 0
  {
    && f.name in m.fields
    && var v := m.fields[f.name];
      match f
      case IntField(_) => v.Int?
      case StringField(_) => v.Str? && |v.s| < 0x1_0000
      case ArrayField(_, fields) => v.Arr? && |v.elems| < 256 && forall e :: e in v.elems ==> Fits(e, fields)
      case UnsetField(_) => false
  }

  /** The message restricted, at every level, to the fields its layout names. */
  function Project(m: Msg, kids: Layout): Msg
    decreases m, 2
  {
    if m.Struct? then Struct(m.ty, ProjectFields(m, map[], kids)) else m
  }

  function ProjectFields(m: Msg, acc: map<string, Msg>, kids: Layout): map<string, Msg>
    requires m.Struct?
    decreases m, 1, |kids|
  {
    if kids == [] then acc
    else if kids[0].name !in m.fields then ProjectFields(m, acc, kids[1..])
    else ProjectFields(m, acc[kids[0].name := ProjectValue(m, kids[0])], kids[1..])
  }

  function ProjectValue(m: Msg, f: Field): Msg
    requires m.Struct? && f.name in m.fields
    decreases m, 0
  {
    var v := m.fields[f.name];
    if v.Arr? then Arr(ProjectElems(v.elems, Kids(f))) else v
  }

  function ProjectElems(elems: seq<Msg>, kids: Layout): seq<Msg>
    decreases elems
  {
    if elems == [] then [] else [Project(elems[0], kids)] + ProjectElems(elems[1..], kids)
  }

  // ----- decoding undoes encoding -----

  lemma {:induction false} DecodeEncode(m: Msg, kids: Layout, rest: seq<byte>)
    requires Fits(m, kids)
    ensures Encode(m, kids).Ok?
    ensures DecodeMsg(kids, Encode(m, kids).value + rest) == Ok(Read(Project(m, kids), rest))
    decreases m, 2
  {
    if m.Struct? {
      DecodeEncodeFields(m, map[], kids, rest);
      var body := EncodeFields(m, kids).value;
      var bs := Encode(m, kids).value + rest;
      assert bs[0] == m.ty && bs[1..] == body + rest;
    } else {
      assert ([0] + rest)[1..] == rest;
    }
  }

  lemma {:induction false} DecodeEncodeFields(m: Msg, acc: map<string, Msg>, kids: Layout, rest: seq<byte>)
    requires m.Struct? && STRUCT <= m.ty < 256 && forall f :: f in kids ==> FieldFits(m, f)
    ensures EncodeFields(m, kids).Ok?
    ensures DecodeFields(m.ty, acc, kids, EncodeFields(m, kids).value + rest)
      == Ok(Read(ProjectFields(m, acc, kids), rest))
    decreases m, 1, |kids|
  {
    if kids == [] {
      assert [] + rest == rest;
    } else {
      var f := kids[0];
      assert FieldFits(m, f);
      DecodeEncodeFields(m, acc[f.name := ProjectValue(m, f)], kids[1..], rest);
      var others := EncodeFields(m, kids[1..]).value;
      DecodeEncodeField(m, f, others + rest);
      var first := EncodeField(m, f).value;
      assert first + others + rest == first + (others + rest);
    }
  }

  lemma {:induction false} DecodeEncodeField(m: Msg, f: Field, rest: seq<byte>)
    requires m.Struct? && FieldFits(m, f)
    ensures EncodeField(m, f).Ok?
    ensures DecodeField(f, EncodeField(m, f).value + rest) == Ok(Read(ProjectValue(m, f), rest))
    decreases m, 0
  {
    var v := m.fields[f.name];
    match f
    case IntField(_) => DecodeEncodeInt(f, v.i, rest);
    case StringField(_) => DecodeEncodeString(f, v.s, rest);
    case ArrayField(_, fields) =>
      DecodeEncodeElems(v.elems, fields, rest);
      EncodeArray(v.elems, fields);
      DecodeArray(f, |v.elems|, EncodeElems(v.elems, fields).value, ProjectElems(v.elems, fields), rest);
  }

  lemma DecodeEncodeInt(f: Field, i: int32, rest: seq<byte>)
    requires f.IntField?
    ensures DecodeField(f, Encode(Int(i), []).value + rest) == Ok(Read(Int(i), rest))
  {
    Le32RoundTrip(i);
    var bs := [INT] + Le32(i) + rest;
    assert bs[1..5] == Le32(i) && bs[5..] == rest;
  }

  lemma DecodeEncodeString(f: Field, s: seq<byte>, rest: seq<byte>)
    requires f.StringField? && |s| < 0x1_0000
    ensures DecodeField(f, Encode(Str(s), []).value + rest) == Ok(Read(Str(s), rest))
  {
    Le16RoundTrip(|s|);
    var bs := [STRING] + Le16(|s|) + s + rest;
    assert bs[1..3] == Le16(|s|) && bs[3..3 + |s|] == s && bs[3 + |s|..] == rest;
  }

  lemma EncodeArray(elems: seq<Msg>, kids: Layout)
    requires |elems| < 256 && EncodeElems(elems, kids).Ok?
    ensures Encode(Arr(elems), kids) == Ok([ARRAY, |elems|] + EncodeElems(elems, kids).value)
  {
  }

  lemma DecodeArray(f: Field, n: byte, body: seq<byte>, elems: seq<Msg>, rest: seq<byte>)
    requires f.ArrayField? && DecodeElems(n, f.fields, body + rest) == Ok(Read(elems, rest))
    ensures DecodeField(f, [ARRAY, n] + body + rest) == Ok(Read(Arr(elems), rest))
  {
    var bs := [ARRAY, n] + body + rest;
    assert bs[1] == n && bs[2..] == body + rest;
  }

  lemma {:induction false} DecodeEncodeElems(elems: seq<Msg>, kids: Layout, rest: seq<byte>)
    requires forall e :: e in elems ==> Fits(e, kids)
    ensures EncodeElems(elems, kids).Ok?
    ensures DecodeElems(|elems|, kids, EncodeElems(elems, kids).value + rest) == Ok(Read(ProjectElems(elems, kids), rest))
    decreases elems
  {
    if elems == [] {
      assert [] + rest == rest;
    } else {
      DecodeEncodeElems(elems[1..], kids, rest);
      var others := EncodeElems(elems[1..], kids).value;
      DecodeEncode(elems[0], kids, others + rest);
      var first := Encode(elems[0], kids).value;
      assert first + others + rest == first + (others + rest);
    }
  }

  // ----- encoding undoes decoding -----

  /** Layouts under which the wire form and the value determine each other. */
  ghost predicate Canonical(kids: Layout)
    decreases kids
  {
    && DistinctNames(kids)
    && forall f :: f in kids ==> !f.ArrayField? || (f.fields != [] && Canonical(f.fields))
  }

  /** Fields already stored survive unless a later layout field has the same name. */
  lemma {:induction false} DecodeFieldsKeeps(ty: byte, acc: map<string, Msg>, kids: Layout, bs: seq<byte>, name: string)
    requires DecodeFields(ty, acc, kids, bs).Ok?
    requires name in acc && forall f :: f in kids ==> f.name != name
    ensures name in DecodeFields(ty, acc, kids, bs).value.value
    ensures DecodeFields(ty, acc, kids, bs).value.value[name] == acc[name]
    decreases |kids|
  {
    if kids != [] {
      var v := DecodeField(kids[0], bs).value;
      DecodeFieldsKeeps(ty, acc[kids[0].name := v.value], kids[1..], v.rest, name);
    }
  }

  lemma {:induction false} EncodeDecode(kids: Layout, bs: seq<byte>)
    requires Canonical(kids)
    requires DecodeMsg(kids, bs).Ok?
    requires kids != [] || bs[0] >= STRUCT
    ensures var Read(m, rest) := DecodeMsg(kids, bs).value;
      && m.Struct? && Fits(m, kids)
      && Encode(m, kids).Ok? && bs == Encode(m, kids).value + rest
    decreases kids, 2
  {
    var r := DecodeFields(bs[0], map[], kids, bs[1..]).value;
    var m := DecodeMsg(kids, bs).value.value;
    EncodeDecodeFields(bs[0], map[], kids, bs[1..]);
    assert bs == [bs[0]] + bs[1..];
    assert bs == [m.ty] + EncodeFields(m, kids).value + r.rest;
  }

  lemma {:induction false} EncodeDecodeFields(ty: byte, acc: map<string, Msg>, kids: Layout, bs: seq<byte>)
    requires Canonical(kids)
    requires DecodeFields(ty, acc, kids, bs).Ok?
    ensures kids != [] ==> ty >= STRUCT
    ensures var Read(fields, rest) := DecodeFields(ty, acc, kids, bs).value;
      var m := Struct(ty, fields);
      && (forall f :: f in kids ==> FieldFits(m, f))
      && EncodeFields(m, kids).Ok? && bs == EncodeFields(m, kids).value + rest
    decreases kids, 1
  {
    if kids == [] {
      assert bs == [] + bs;
    } else {
      var f := kids[0];
      var v := DecodeField(f, bs).value;
      var acc' := acc[f.name := v.value];
      var Read(fields, rest) := DecodeFields(ty, acc, kids, bs).value;
      assert DecodeFields(ty, acc', kids[1..], v.rest) == Ok(Read(fields, rest));
      assert Canonical(kids[1..]);
      EncodeDecodeFields(ty, acc', kids[1..], v.rest);
      DecodeFieldsKeeps(ty, acc', kids[1..], v.rest, f.name);
      EncodeDecodeField(Struct(ty, fields), f, bs);
      FieldsCons(Struct(ty, fields), kids, bs, v.rest, rest);
    }
  }

  lemma FieldsCons(m: Msg, kids: Layout, bs: seq<byte>, mid: seq<byte>, rest: seq<byte>)
    requires m.Struct? && kids != []
    requires FieldFits(m, kids[0]) && forall f :: f in kids[1..] ==> FieldFits(m, f)
    requires EncodeField(m, kids[0]).Ok? && bs == EncodeField(m, kids[0]).value + mid
    requires EncodeFields(m, kids[1..]).Ok? && mid == EncodeFields(m, kids[1..]).value + rest
    ensures forall f :: f in kids ==> FieldFits(m, f)
    ensures EncodeFields(m, kids).Ok? && bs == EncodeFields(m, kids).value + rest
  {
    assert kids == [kids[0]] + kids[1..];
    var first, others := EncodeField(m, kids[0]).value, EncodeFields(m, kids[1..]).value;
    assert first + others + rest == first + (others + rest);
  }

  lemma {:induction false} EncodeDecodeField(m: Msg, f: Field, bs: seq<byte>)
    requires f.ArrayField? ==> f.fields != [] && Canonical(f.fields)
    requires DecodeField(f, bs).Ok?
    requires m.Struct? && f.name in m.fields && m.fields[f.name] == DecodeField(f, bs).value.value
    ensures FieldFits(m, f)
    ensures EncodeField(m, f).Ok? && bs == EncodeField(m, f).value + DecodeField(f, bs).value.rest
    decreases f, 4
  {
    match f
    case IntField(_) => EncodeDecodeInt(bs);
    case StringField(_) => EncodeDecodeString(bs);
    case ArrayField(_, fields) =>
      EncodeDecodeElems(bs[1], fields, bs[2..]);
      var r := DecodeElems(bs[1], fields, bs[2..]).value;
      EncodeDecodeArray(bs, r.value, fields, r.rest);
  }

  lemma EncodeDecodeArray(bs: seq<byte>, elems: seq<Msg>, fields: Layout, rest: seq<byte>)
    requires |bs| >= 2 && bs[0] == ARRAY && bs[1] == |elems|
    requires EncodeElems(elems, fields).Ok? && bs[2..] == EncodeElems(elems, fields).value + rest
    ensures Encode(Arr(elems), fields).Ok? && bs == Encode(Arr(elems), fields).value + rest
  {
    assert bs == [bs[0], bs[1]] + bs[2..];
  }

  lemma EncodeDecodeInt(bs: seq<byte>)
    requires |bs| >= 5 && bs[0] == INT
    ensures bs == Encode(Int(FromLe32(bs[1..5])), []).value + bs[5..]
  {
    Le32Exact(bs[1..5]);
    assert bs == [INT] + bs[1..5] + bs[5..];
  }

  lemma EncodeDecodeString(bs: seq<byte>)
    requires |bs| >= 3 && bs[0] == STRING && |bs| >= 3 + FromLe16(bs[1..3])
    ensures var n := FromLe16(bs[1..3]);
      bs == Encode(Str(bs[3..3 + n]), []).value + bs[3 + n..]
  {
    Le16Exact(bs[1..3]);
    var n := FromLe16(bs[1..3]);
    assert bs == [STRING] + bs[1..3] + bs[3..3 + n] + bs[3 + n..];
  }

  lemma {:induction false} EncodeDecodeElems(n: nat, kids: Layout, bs: seq<byte>)
    requires kids != [] && Canonical(kids)
    requires DecodeElems(n, kids, bs).Ok?
    ensures var Read(elems, rest) := DecodeElems(n, kids, bs).value;
      && |elems| == n && (forall e :: e in elems ==> Fits(e, kids))
      && EncodeElems(elems, kids).Ok? && bs == EncodeElems(elems, kids).value + rest
    decreases kids, 3, n
  {
    if n == 0 {
      assert bs == [] + bs;
    } else {
      var first := DecodeMsg(kids, bs).value;
      EncodeDecode(kids, bs);
      EncodeDecodeElems(n - 1, kids, first.rest);
      var others := DecodeElems(n - 1, kids, first.rest).value;
      var elems := DecodeElems(n, kids, bs).value.value;
      assert elems[0] == first.value && elems[1..] == others.value;
      assert bs == Encode(first.value, kids).value + (EncodeElems(others.value, kids).value + others.rest);
    }
  }

  // ----- main results -----

  /**
   * The decoder accepts exactly the encodings: a byte string decodes to a structured message m, leaving rest, if and
   * only if m fits the wire, carries no field beyond its layout, and the bytes are its encoding followed by rest.
   */
  lemma DecodeIff(kids: Layout, bs: seq<byte>, m: Msg, rest: seq<byte>)
    requires Canonical(kids) && m.Struct?
    ensures DecodeMsg(kids, bs) == Ok(Read(m, rest))
      <==> Fits(m, kids) && Project(m, kids) == m && Encode(m, kids).Ok? && bs == Encode(m, kids).value + rest
  {
    if DecodeMsg(kids, bs) == Ok(Read(m, rest)) {
      EncodeDecode(kids, bs);
      DecodeEncode(m, kids, rest);
    } else if Fits(m, kids) {
      DecodeEncode(m, kids, rest);
    }
  }

  /** No encoding is a proper prefix of another one, and equal encodings carry equal contents. */
  lemma EncodingPrefixFree(m: Msg, m': Msg, kids: Layout)
    requires Fits(m, kids) && Fits(m', kids)
    requires Encode(m, kids).Ok? && Encode(m', kids).Ok?
    requires Encode(m, kids).value <= Encode(m', kids).value
    ensures Encode(m, kids) == Encode(m', kids)
    ensures Project(m, kids) == Project(m', kids)
  {
    var b, b' := Encode(m, kids).value, Encode(m', kids).value;
    DecodeEncode(m, kids, b'[|b|..]);
    DecodeEncode(m', kids, []);
    assert b + b'[|b|..] == b' == b' + [];
    assert b == b';
  }

  predicate IsSuffix(rest: seq<byte>, bs: seq<byte>) {
    |rest| <= |bs| && rest == bs[|bs| - |rest|..]
  }

  lemma SuffixTransitive(a: seq<byte>, b: seq<byte>, c: seq<byte>)
    requires IsSuffix(a, b) && IsSuffix(b, c)
    ensures IsSuffix(a, c)
  {
  }

  /** Decoding never reads past the end: what is left is a proper suffix of the input. */
  lemma {:induction false} DecodeConsumes(kids: Layout, bs: seq<byte>)
    requires DecodeMsg(kids, bs).Ok?
    ensures IsSuffix(DecodeMsg(kids, bs).value.rest, bs) && |DecodeMsg(kids, bs).value.rest| < |bs|
    decreases kids, 2
  {
    DecodeFieldsConsumes(bs[0], map[], kids, bs[1..]);
    SuffixTransitive(DecodeMsg(kids, bs).value.rest, bs[1..], bs);
  }

  lemma {:induction false} DecodeFieldsConsumes(ty: byte, acc: map<string, Msg>, kids: Layout, bs: seq<byte>)
    requires DecodeFields(ty, acc, kids, bs).Ok?
    ensures IsSuffix(DecodeFields(ty, acc, kids, bs).value.rest, bs)
    decreases kids, 1
  {
    if kids != [] {
      var v := DecodeField(kids[0], bs).value;
      DecodeFieldConsumes(kids[0], bs);
      DecodeFieldsConsumes(ty, acc[kids[0].name := v.value], kids[1..], v.rest);
      SuffixTransitive(DecodeFields(ty, acc, kids, bs).value.rest, v.rest, bs);
    }
  }

  lemma {:induction false} DecodeFieldConsumes(f: Field, bs: seq<byte>)
    requires DecodeField(f, bs).Ok?
    ensures IsSuffix(DecodeField(f, bs).value.rest, bs)
    decreases f, 4
  {
    if f.ArrayField? {
      DecodeElemsConsumes(bs[1], f.fields, bs[2..]);
      SuffixTransitive(DecodeField(f, bs).value.rest, bs[2..], bs);
    }
  }

  lemma {:induction false} DecodeElemsConsumes(n: nat, kids: Layout, bs: seq<byte>)
    requires DecodeElems(n, kids, bs).Ok?
    ensures IsSuffix(DecodeElems(n, kids, bs).value.rest, bs)
    decreases kids, 3, n
  {
    if n > 0 {
      var first := DecodeMsg(kids, bs).value;
      DecodeConsumes(kids, bs);
      DecodeElemsConsumes(n - 1, kids, first.rest);
      SuffixTransitive(DecodeElems(n, kids, bs).value.rest, first.rest, bs);
    }
  }

  lemma {:induction false} ProjectFieldsAt(m: Msg, acc: map<string, Msg>, kids: Layout, name: string)
    requires m.Struct? && DistinctNames(kids)
    ensures var fields := ProjectFields(m, acc, kids);
      && (forall f :: f in kids && f.name in m.fields ==> f.name in fields && fields[f.name] == ProjectValue(m, f))
      && (name in acc && (forall f :: f in kids ==> f.name != name) ==> name in fields && fields[name] == acc[name])
    decreases |kids|
  {
    if kids != [] {
      var f := kids[0];
      assert forall g :: g in kids[1..] ==> g.name != f.name;
      var acc' := if f.name in m.fields then acc[f.name := ProjectValue(m, f)] else acc;
      ProjectFieldsAt(m, acc', kids[1..], f.name);
      ProjectFieldsAt(m, acc', kids[1..], name);
      assert kids == [f] + kids[1..];
    }
  }

  /** Restricting a message to its layout hides none of its faults. */
  lemma {:induction false} FitsFromProject(m: Msg, kids: Layout)
    requires m.Struct? && Canonical(kids) && EncodeFields(m, kids).Ok?
    requires Fits(Project(m, kids), kids)
    ensures Fits(m, kids)
    decreases m
  {
    forall f | f in kids
      ensures FieldFits(m, f)
    {
      EncodableFieldIsSet(m, f, kids);
      ProjectFieldsAt(m, map[], kids, f.name);
      assert FieldFits(Project(m, kids), f);
      var v := m.fields[f.name];
      if f.ArrayField? {
        forall e | e in v.elems
          ensures Fits(e, f.fields)
        {
          ElemsFitFromProject(v.elems, f.fields, e);
          if e.Struct? {
            FitsFromProject(e, f.fields);
          }
        }
        ProjectElemsLength(v.elems, f.fields);
      }
    }
  }

  lemma {:induction false} EncodableFieldIsSet(m: Msg, f: Field, kids: Layout)
    requires m.Struct? && EncodeFields(m, kids).Ok? && f in kids
    ensures f.name in m.fields && EncodeField(m, f).Ok?
    decreases |kids|
  {
    if f != kids[0] {
      EncodableFieldIsSet(m, f, kids[1..]);
    }
  }

  lemma {:induction false} ProjectElemsLength(elems: seq<Msg>, kids: Layout)
    ensures |ProjectElems(elems, kids)| == |elems|
    decreases |elems|
  {
    if elems != [] {
      ProjectElemsLength(elems[1..], kids);
    }
  }

  lemma {:induction false} ElemsFitFromProject(elems: seq<Msg>, kids: Layout, e: Msg)
    requires e in elems && EncodeElems(elems, kids).Ok?
    requires forall p :: p in ProjectElems(elems, kids) ==> Fits(p, kids)
    ensures Fits(Project(e, kids), kids) && Encode(e, kids).Ok?
    decreases |elems|
  {
    var ps := ProjectElems(elems, kids);
    assert ps[0] in ps && forall p :: p in ps[1..] ==> p in ps;
    if e != elems[0] {
      ElemsFitFromProject(elems[1..], kids, e);
    }
  }

  /**
   * Exactly when a message that the encoder accepts comes back: the length of a string must fit two bytes, the number
   * of elements of an array and the type numbers one byte, and array elements must be structured.
   */
  lemma RoundTripIff(m: Msg, kids: Layout, rest: seq<byte>)
    requires m.Struct? && Canonical(kids) && Encode(m, kids).Ok?
    ensures DecodeMsg(kids, Encode(m, kids).value + rest) == Ok(Read(Project(m, kids), rest)) <==> Fits(m, kids)
  {
    var bs := Encode(m, kids).value + rest;
    if Fits(m, kids) {
      DecodeEncode(m, kids, rest);
    } else if DecodeMsg(kids, bs) == Ok(Read(Project(m, kids), rest)) {
      EncodeDecode(kids, bs);
      FitsFromProject(m, kids);
    }
  }

  /** A string of 65536 bytes passes the size test of the encoder, and the decoder reads an empty string back. */
  lemma LongStringIsLost()
    ensures var kids := [StringField("img")];
      var m := Struct(5, map["img" := Str(seq(0x1_0000, _ => 7))]);
      && Encode(m, kids).Ok?
      && DecodeMsg(kids, Encode(m, kids).value) == Ok(Read(Struct(5, map["img" := Str([])]), seq(0x1_0000, _ => 7)))
  {
    var kids := [StringField("img")];
    var s: seq<byte> := seq(0x1_0000, _ => 7);
    var m := Struct(5, map["img" := Str(s)]);
    assert Le16(|s|) == [0, 0];
    assert [STRING] + [0, 0] + s == [STRING, 0, 0] + s;
    assert EncodeField(m, kids[0]) == Ok([STRING, 0, 0] + s);
    assert kids[1..] == [];
    assert EncodeFields(m, kids) == Ok([STRING, 0, 0] + s + []);
    var bs := Encode(m, kids).value;
    assert bs == [5, STRING, 0, 0] + s;
    assert bs[1..] == [STRING, 0, 0] + s;
    assert bs[1..][1..3] == [0, 0] && bs[1..][3..] == s && bs[1..][3..3] == [];
    assert DecodeField(kids[0], bs[1..]) == Ok(Read(Str([]), s));
  }

  /** The bytes of a small message, written out: type, then a tag and the value of each field, low bytes first. */
  lemma WireExample()
    ensures var kids := [IntField("addr"), StringField("name")];
      Encode(Struct(9, map["addr" := Int(-2), "name" := Str([65, 66])]), kids)
      == Ok([9, 1, 254, 255, 255, 255, 2, 2, 0, 65, 66])
  {
    var a, b := IntField("addr"), StringField("name");
    var m := Struct(9, map["addr" := Int(-2), "name" := Str([65, 66])]);
    assert Unsigned32(-2) == 0xFFFF_FFFE;
    assert Le32(-2) == [254, 255, 255, 255];
    assert EncodeField(m, a) == Ok([INT] + Le32(-2));
    assert [STRING] + Le16(2) + [65, 66] == [2, 2, 0, 65, 66];
    assert EncodeField(m, b) == Ok([2, 2, 0, 65, 66]);
    assert [a, b][1..] == [b] && [b][1..] == [];
    assert EncodeFields(m, [b]) == Ok([2, 2, 0, 65, 66] + []);
    assert [INT] + Le32(-2) + ([2, 2, 0, 65, 66] + []) == [1, 254, 255, 255, 255, 2, 2, 0, 65, 66];
    assert EncodeFields(m, [a, b]) == Ok([1, 254, 255, 255, 255, 2, 2, 0, 65, 66]);
    assert [9] + [1, 254, 255, 255, 255, 2, 2, 0, 65, 66] == [9, 1, 254, 255, 255, 255, 2, 2, 0, 65, 66];
  }

  // ----- what the encoder accepts -----

  /** Every layout field is set and has its type, at every level, and no string has more than 65536 bytes. */
  ghost predicate Accepts(m: Msg, kids: Layout)
    decreases m, 2
  {
    match m
    case Int(_) => true
    case Str(s) => |s| <= 65536
    case Arr(elems) => forall e :: e in elems ==> Accepts(e, kids)
    case Struct(_, _) => forall f :: f in kids ==> AcceptsField(m, f)
    case Hollow(ty) => ty == 0 && kids == []
  }

  ghost predicate AcceptsField(m: Msg, f: Field)
    requires m.Struct?
    decreases m, 1
  {
    && f.name in m.fields && !f.UnsetField? && m.fields[f.name].Type() == f.Code()
    && Accepts(m.fields[f.name], Kids(f))
  }

  /** The encoder accepts a message if and only if its fields are set, of their type, and no string is too long. */
  lemma {:induction false} EncodeIff(m: Msg, kids: Layout)
    ensures Encode(m, kids).Ok? <==> Accepts(m, kids)
    decreases m, 2
  {
    match m
    case Arr(elems) => EncodeElemsIff(elems, kids);
    case Struct(_, _) => EncodeFieldsIff(m, kids);
    case _ =>
  }

  lemma {:induction false} EncodeElemsIff(elems: seq<Msg>, kids: Layout)
    ensures EncodeElems(elems, kids).Ok? <==> forall e :: e in elems ==> Accepts(e, kids)
    decreases elems
  {
    if elems != [] {
      EncodeIff(elems[0], kids);
      EncodeElemsIff(elems[1..], kids);
      assert elems == [elems[0]] + elems[1..];
    }
  }

  lemma {:induction false} EncodeFieldsIff(m: Msg, kids: Layout)
    requires m.Struct?
    ensures EncodeFields(m, kids).Ok? <==> forall f :: f in kids ==> AcceptsField(m, f)
    decreases m, 1, |kids|
  {
    if kids != [] {
      EncodeFieldIff(m, kids[0]);
      EncodeFieldsIff(m, kids[1..]);
      assert EncodeFields(m, kids).Ok? <==> EncodeField(m, kids[0]).Ok? && EncodeFields(m, kids[1..]).Ok?;
      assert kids == [kids[0]] + kids[1..];
    }
  }

  lemma {:induction false} EncodeFieldIff(m: Msg, f: Field)
    requires m.Struct?
    ensures EncodeField(m, f).Ok? <==> AcceptsField(m, f)
    decreases m, 0
  {
    if f.name in m.fields {
      EncodeIff(m.fields[f.name], Kids(f));
    }
  }

  /** An array written out: its tag, the number of elements, and for each the tag of a struct and its fields. */
  lemma ArrayExample(e: Msg, kids: Layout)
    requires kids == [IntField("x")] && e == Struct(STRUCT, map["x" := Int(7)])
    ensures Encode(Arr([e, e]), kids) == Ok([3, 2, 4, 1, 7, 0, 0, 0, 4, 1, 7, 0, 0, 0])
  {
    ElementExample(e, kids);
    var es := [e, e];
    assert es[1..] == [e] && es[1..][1..] == [];
    assert EncodeElems(es[1..], kids) == Ok([4, 1, 7, 0, 0, 0] + []);
    assert EncodeElems(es, kids) == Ok([4, 1, 7, 0, 0, 0] + ([4, 1, 7, 0, 0, 0] + []));
    assert [ARRAY, 2] + ([4, 1, 7, 0, 0, 0] + ([4, 1, 7, 0, 0, 0] + [])) == [3, 2, 4, 1, 7, 0, 0, 0, 4, 1, 7, 0, 0, 0];
  }

  lemma ElementExample(e: Msg, kids: Layout)
    requires kids == [IntField("x")] && e == Struct(STRUCT, map["x" := Int(7)])
    ensures Encode(e, kids) == Ok([4, 1, 7, 0, 0, 0])
  {
    assert Unsigned32(7) == 7 && Le32(7) == [7, 0, 0, 0];
    assert e.fields["x"] == Int(7) && [INT] + Le32(7) == [1, 7, 0, 0, 0];
    assert EncodeField(e, kids[0]) == Ok([1, 7, 0, 0, 0]);
    assert kids[1..] == [];
    assert EncodeFields(e, kids) == Ok([1, 7, 0, 0, 0] + []);
    assert [STRUCT] + ([1, 7, 0, 0, 0] + []) == [4, 1, 7, 0, 0, 0];
  }
}
