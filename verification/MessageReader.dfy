// The codec as the program runs it: a reader with a moving position, and loops over layouts and elements.
module MessageReader {
  import opened Bytes
  import opened Layouts
  import opened Messages

  class InputReader {
    const data: seq<byte>
    var pos: nat

    ghost predicate Valid()
      reads this
    {
      pos <= |data|
    }

    /** The bytes not yet read. */
    ghost function Rest(): (bs: seq<byte>)
      requires Valid()
      reads this
    {
      data[pos..]
    }

    constructor (data: seq<byte>)
      ensures this.data == data && pos == 0 && Valid()
    {
      this.data := data;
      pos := 0;
    }

    /** A failed read moves the position past the end; a successful one returns the next byte. */
    method GetByte() returns (r: Result<byte>)
      requires Valid()
      modifies this
      ensures pos == old(pos) + 1
      ensures old(Rest()) == [] ==> r == Err(Overrun)
      ensures old(Rest()) != [] ==> Valid() && r == Ok(old(Rest())[0]) && Rest() == old(Rest())[1..]
    {
      pos := pos + 1;
      if pos > |data| {
        return Err(Overrun);
      }
      r := Ok(data[pos - 1]);
    }

    method GetInt() returns (r: Result<int32>)
      requires Valid()
      modifies this
      ensures pos == old(pos) + 4
      ensures |old(Rest())| < 4 ==> r == Err(Overrun)
      ensures |old(Rest())| >= 4 ==> Valid() && r == Ok(FromLe32(old(Rest())[..4])) && Rest() == old(Rest())[4..]
    {
      pos := pos + 4;
      if pos > |data| {
        return Err(Overrun);
      }
      assert data[pos - 4..pos] == old(data[pos..][..4]);
      r := Ok(FromLe32(data[pos - 4..pos]));
    }

    /** A two-byte length, low byte first, then that many bytes. */
    method GetString() returns (r: Result<seq<byte>>)
      requires Valid()
      modifies this
      ensures var bs := old(Rest());
        if |bs| < 2 || |bs| < 2 + FromLe16(bs[..2]) then r == Err(Overrun)
        else
          && Valid()
          && r == Ok(bs[2..2 + FromLe16(bs[..2])])
          && Rest() == bs[2 + FromLe16(bs[..2])..]
    {
      ghost var bs := Rest();
      var lo := GetByte();
      if lo.Err? {
        return Err(Overrun);
      }
      var hi := GetByte();
      if hi.Err? {
        return Err(Overrun);
      }
      assert bs[..2] == [lo.value, hi.value];
      var n := FromLe16([lo.value, hi.value]);
      if pos + n > |data| {
        return Err(Overrun);
      }
      assert data[pos..pos + n] == bs[2..2 + n];
      r := Ok(data[pos..pos + n]);
      pos := pos + n;
    }
  }

  /** The reader and its result agree with a decoding: same failure, or same value and same bytes left. */
  ghost predicate Agrees<T(!new)>(reader: InputReader, r: Result<T>, spec: Result<Read<T>>)
    reads reader
  {
    match spec
    case Ok(read) => r == Ok(read.value) && reader.Valid() && reader.Rest() == read.rest
    case Err(e) => r == Err(e)
  }

  ghost function PrependElems(elems: seq<Msg>, r: Result<Read<seq<Msg>>>): Result<Read<seq<Msg>>> {
    match r
    case Ok(read) => Ok(Read(elems + read.value, read.rest))
    case Err(e) => Err(e)
  }

  /** The loop over the child layouts, filling the struct field by field. */
  method ReadMessage(reader: InputReader, kids: Layout) returns (r: Result<Msg>)
    requires reader.Valid()
    modifies reader
    ensures Agrees(reader, r, DecodeMsg(kids, old(reader.Rest())))
    decreases kids, 1
  {
    ghost var start := reader.Rest();
    var ty := reader.GetByte();
    if ty.Err? {
      return Err(Overrun);
    }
    ghost var body := reader.Rest();
    var fields: map<string, Msg> := map[];
    for i := 0 to |kids|
      invariant reader.Valid()
      invariant DecodeFields(ty.value, map[], kids, body) == DecodeFields(ty.value, fields, kids[i..], reader.Rest())
    {
      var f := kids[i];
      assert kids[i..][0] == f && kids[i..][1..] == kids[i + 1..];
      var v := ReadField(reader, f);
      if v.Err? {
        return Err(v.error);
      }
      if ty.value < STRUCT {
        return Err(NotAStruct);
      }
      fields := fields[f.name := v.value];
    }
    r := Ok(Assemble(ty.value, fields));
  }

  /** The switch on the layout type of a field. */
  method ReadField(reader: InputReader, f: Field) returns (r: Result<Msg>)
    requires reader.Valid()
    modifies reader
    ensures Agrees(reader, r, DecodeField(f, old(reader.Rest())))
    decreases f, 0
  {
    ghost var bs := reader.Rest();
    var ty := reader.GetByte();
    if ty.Err? {
      return Err(Overrun);
    }
    if f.UnsetField? {
      return Err(UnsetType);
    }
    if ty.value != f.Code() {
      return Err(UnexpectedType);
    }
    match f
    case IntField(_) =>
      IntBehindType(f, bs);
      var i := reader.GetInt();
      if i.Err? {
        return Err(Overrun);
      }
      r := Ok(Int(i.value));
    case StringField(_) =>
      StringBehindType(f, bs);
      var s := reader.GetString();
      if s.Err? {
        return Err(Overrun);
      }
      r := Ok(Str(s.value));
    case ArrayField(_, fields) =>
      ArrayBehindType(f, bs);
      var n := reader.GetByte();
      if n.Err? {
        return Err(Overrun);
      }
      var elems := ReadElems(reader, n.value, fields);
      if elems.Err? {
        return Err(elems.error);
      }
      r := Ok(Arr(elems.value));
  }

  // What is decoded behind a type byte that matches the layout.

  lemma IntBehindType(f: Field, bs: seq<byte>)
    requires f.IntField? && bs != [] && bs[0] == INT
    ensures var t := bs[1..];
      DecodeField(f, bs) == if |t| < 4 then Err(Overrun) else Ok(Read(Int(FromLe32(t[..4])), t[4..]))
  {
    assert |bs| >= 5 ==> bs[1..][..4] == bs[1..5] && bs[1..][4..] == bs[5..];
  }

  lemma StringBehindType(f: Field, bs: seq<byte>)
    requires f.StringField? && bs != [] && bs[0] == STRING
    ensures var t := bs[1..];
      DecodeField(f, bs) ==
        if |t| < 2 || |t| < 2 + FromLe16(t[..2]) then Err(Overrun)
        else Ok(Read(Str(t[2..2 + FromLe16(t[..2])]), t[2 + FromLe16(t[..2])..]))
  {
    if |bs| >= 3 {
      assert bs[1..][..2] == bs[1..3];
      var n := FromLe16(bs[1..3]);
      assert |bs| >= 3 + n ==> bs[1..][2..2 + n] == bs[3..3 + n] && bs[1..][2 + n..] == bs[3 + n..];
    }
  }

  lemma ArrayBehindType(f: Field, bs: seq<byte>)
    requires f.ArrayField? && bs != [] && bs[0] == ARRAY
    ensures var t := bs[1..];
      DecodeField(f, bs) ==
        if t == [] then Err(Overrun)
        else match DecodeElems(t[0], f.fields, t[1..])
          case Ok(r) => Ok(Read(Arr(r.value), r.rest))
          case Err(e) => Err(e)
  {
    assert |bs| >= 2 ==> bs[1..][1..] == bs[2..];
  }

  /** The loop over the elements of an array. */
  method ReadElems(reader: InputReader, n: nat, kids: Layout) returns (r: Result<seq<Msg>>)
    requires reader.Valid()
    modifies reader
    ensures Agrees(reader, r, DecodeElems(n, kids, old(reader.Rest())))
    decreases kids, 2
  {
    var elems: seq<Msg> := [];
    ghost var all := DecodeElems(n, kids, reader.Rest());
    PrependNothing(all);
    for j := 0 to n
      invariant reader.Valid()
      invariant all == PrependElems(elems, DecodeElems(n - j, kids, reader.Rest()))
    {
      var e := ReadMessage(reader, kids);
      if e.Err? {
        return Err(e.error);
      }
      PrependStep(elems, e.value, DecodeElems(n - j - 1, kids, reader.Rest()));
      elems := elems + [e.value];
    }
    assert elems + [] == elems;
    r := Ok(elems);
  }

  lemma PrependNothing(r: Result<Read<seq<Msg>>>)
    ensures PrependElems([], r) == r
  {
    if r.Ok? {
      assert [] + r.value.value == r.value.value;
    }
  }

  lemma PrependStep(elems: seq<Msg>, e: Msg, r: Result<Read<seq<Msg>>>)
    ensures PrependElems(elems, PrependElems([e], r)) == PrependElems(elems + [e], r)
  {
    if r.Ok? {
      assert elems + ([e] + r.value.value) == elems + [e] + r.value.value;
    }
  }

  ghost function PrependBytes(bs: seq<byte>, r: Result<seq<byte>>): Result<seq<byte>> {
    match r
    case Ok(others) => Ok(bs + others)
    case Err(e) => Err(e)
  }

  lemma PrependBytesStep(bs: seq<byte>, cs: seq<byte>, r: Result<seq<byte>>)
    ensures PrependBytes(bs, PrependBytes(cs, r)) == PrependBytes(bs + cs, r)
  {
    if r.Ok? {
      assert bs + (cs + r.value) == bs + cs + r.value;
    }
  }

  /** The accumulating string of getBinaryMessage. */
  method GetBinaryMessage(m: Msg, kids: Layout) returns (r: Result<seq<byte>>)
    ensures r == Encode(m, kids)
    decreases m
  {
    var ret: seq<byte> := [m.Type() % 256];
    match m {
      case Int(i) =>
        ret := ret + Le32(i);
      case Str(s) =>
        if |s| > 0x1_0000 {
          return Err(StringTooBig);
        }
        ret := ret + Le16(|s|);
        ret := ret + s;
      case Arr(elems) =>
        ret := ret + [|elems| % 256];
        assert ret == [ARRAY, |elems| % 256] && elems[0..] == elems;
        for i := 0 to |elems|
          invariant PrependBytes(ret, EncodeElems(elems[i..], kids))
            == PrependBytes([ARRAY, |elems| % 256], EncodeElems(elems, kids))
        {
          assert elems[i..][0] == elems[i] && elems[i..][1..] == elems[i + 1..];
          var e := GetBinaryMessage(elems[i], kids);
          if e.Err? {
            return Err(e.error);
          }
          PrependBytesStep(ret, e.value, EncodeElems(elems[i + 1..], kids));
          ret := ret + e.value;
        }
        assert ret + [] == ret;
      case Struct(ty, fields) =>
        assert kids[0..] == kids;
        for i := 0 to |kids|
          invariant PrependBytes(ret, EncodeFields(m, kids[i..])) == PrependBytes([ty % 256], EncodeFields(m, kids))
        {
          var f := kids[i];
          assert kids[i..][0] == f && kids[i..][1..] == kids[i + 1..];
          if f.name !in fields {
            return Err(FieldNotSet);
          }
          if f.UnsetField? {
            return Err(UnsetType);
          }
          if fields[f.name].Type() != f.Code() {
            return Err(FieldTypeMismatch);
          }
          var e := GetBinaryMessage(fields[f.name], Kids(f));
          if e.Err? {
            return Err(e.error);
          }
          PrependBytesStep(ret, e.value, EncodeFields(m, kids[i + 1..]));
          ret := ret + e.value;
        }
        assert ret + [] == ret;
      case Hollow(ty) =>
        if ty != 0 || kids != [] {
          return Err(NullData);
        }
    }
    r := Ok(ret);
  }
}
