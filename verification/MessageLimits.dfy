// Which layouts let every accepted byte string be re-encoded: exactly the canonical ones.
module MessageLimits {
  import opened Bytes
  import opened Layouts
  import opened Messages

  /** The message decoded from bs encodes back to the bytes that were read. */
  ghost predicate Reencodes(kids: Layout, bs: seq<byte>)
    requires DecodeMsg(kids, bs).Ok?
  {
    var Read(m, rest) := DecodeMsg(kids, bs).value;
    Encode(m, kids).Ok? && bs == Encode(m, kids).value + rest
  }

  // Two ways to fill a field: the smallest value, and one that differs from it in its second byte.

  function Blank(f: Field): (bs: seq<byte>)
    requires !f.UnsetField?
  {
    match f
    case IntField(_) => [INT, 0, 0, 0, 0]
    case StringField(_) => [STRING, 0, 0]
    case ArrayField(_, _) => [ARRAY, 0]
  }

  function BlankValue(f: Field): Msg
    requires !f.UnsetField?
  {
    match f
    case IntField(_) => Int(0)
    case StringField(_) => Str([])
    case ArrayField(_, _) => Arr([])
  }

  function Bump(f: Field): (bs: seq<byte>)
    requires Typed([f])
  {
    assert f in [f];
    match f
    case IntField(_) => [INT, 1, 0, 0, 0]
    case StringField(_) => [STRING, 1, 0, 0]
    case ArrayField(_, fields) => [ARRAY, 1, STRUCT] + BlankBody(fields)
  }

  function BumpValue(f: Field): Msg
    requires Typed([f])
  {
    assert f in [f];
    match f
    case IntField(_) => Int(1)
    case StringField(_) => Str([0])
    case ArrayField(_, fields) => Arr([Struct(STRUCT, BlankFields(fields))])
  }

  function BlankBody(kids: Layout): (bs: seq<byte>)
    requires Typed(kids)
  {
    if kids == [] then [] else Blank(kids[0]) + BlankBody(kids[1..])
  }

  function BlankFields(kids: Layout): (d: map<string, Msg>)
    requires Typed(kids)
  {
    if kids == [] then map[] else map[kids[0].name := BlankValue(kids[0])] + BlankFields(kids[1..])
  }

  function BumpBody(kids: Layout): (bs: seq<byte>)
    requires Typed(kids)
  {
    if kids == [] then [] else
    assert forall f :: f in [kids[0]] ==> f in kids;
    Bump(kids[0]) + BumpBody(kids[1..])
  }

  function BumpFields(kids: Layout): (d: map<string, Msg>)
    requires Typed(kids)
  {
    if kids == [] then map[] else
    assert forall f :: f in [kids[0]] ==> f in kids;
    map[kids[0].name := BumpValue(kids[0])] + BumpFields(kids[1..])
  }

  /** Decoding body stores exactly the fields d and leaves what follows. */
  ghost predicate Decodes(kids: Layout, body: seq<byte>, d: map<string, Msg>) {
    forall ty: byte, acc: map<string, Msg>, rest: seq<byte> :: ty >= STRUCT ==>
      DecodeFields(ty, acc, kids, body + rest) == Ok(Read(acc + d, rest))
  }

  lemma DecodeFieldsCons(ty: byte, acc: map<string, Msg>, f: Field, v: Msg, kids: Layout, bs: seq<byte>, tail: seq<byte>)
    requires ty >= STRUCT && DecodeField(f, bs) == Ok(Read(v, tail))
    ensures DecodeFields(ty, acc, [f] + kids, bs) == DecodeFields(ty, acc[f.name := v], kids, tail)
  {
  }

  lemma UnionCons(acc: map<string, Msg>, n: string, v: Msg, d: map<string, Msg>)
    ensures acc[n := v] + d == acc + (map[n := v] + d)
  {
  }

  lemma DecodesCons(f: Field, bs: seq<byte>, v: Msg, kids: Layout, body: seq<byte>, d: map<string, Msg>)
    requires forall rest: seq<byte> :: DecodeField(f, bs + rest) == Ok(Read(v, rest))
    requires Decodes(kids, body, d)
    ensures Decodes([f] + kids, bs + body, map[f.name := v] + d)
  {
    forall ty: byte, acc: map<string, Msg>, rest: seq<byte> | ty >= STRUCT
      ensures DecodeFields(ty, acc, [f] + kids, bs + body + rest) == Ok(Read(acc + (map[f.name := v] + d), rest))
    {
      Regroup(bs, body, rest);
      DecodeFieldsCons(ty, acc, f, v, kids, bs + body + rest, body + rest);
      UnionCons(acc, f.name, v, d);
    }
  }

  lemma Regroup(a: seq<byte>, b: seq<byte>, c: seq<byte>)
    ensures a + b + c == a + (b + c)
  {
  }

  lemma BlankDecodes(f: Field, rest: seq<byte>)
    requires !f.UnsetField?
    ensures DecodeField(f, Blank(f) + rest) == Ok(Read(BlankValue(f), rest))
  {
    var bs := Blank(f) + rest;
    match f
    case IntField(_) => assert bs[1..5] == [0, 0, 0, 0] && bs[5..] == rest;
    case StringField(_) => assert bs[1..3] == [0, 0] && bs[3..] == rest && bs[3..3] == [];
    case ArrayField(_, _) => assert bs[2..] == rest;
  }

  lemma {:induction false} BlankBodyDecodes(kids: Layout)
    requires Typed(kids)
    ensures Decodes(kids, BlankBody(kids), BlankFields(kids))
    decreases |kids|
  {
    if kids == [] {
      forall ty: byte, acc: map<string, Msg>, rest: seq<byte>
        ensures DecodeFields(ty, acc, [], [] + rest) == Ok(Read(acc + map[], rest))
      {
        assert [] + rest == rest && acc + map[] == acc;
      }
    } else {
      BlankBodyDecodes(kids[1..]);
      forall rest: seq<byte> {
        BlankDecodes(kids[0], rest);
      }
      DecodesCons(kids[0], Blank(kids[0]), BlankValue(kids[0]), kids[1..], BlankBody(kids[1..]), BlankFields(kids[1..]));
      assert kids == [kids[0]] + kids[1..];
    }
  }

  /** An array holding one element, given as the bytes of its fields. */
  lemma SingletonDecodes(f: Field, ty: byte, body: seq<byte>, d: map<string, Msg>, rest: seq<byte>)
    requires f.ArrayField? && (ty >= STRUCT || (f.fields == [] && body == [] && d == map[]))
    requires Decodes(f.fields, body, d)
    ensures DecodeField(f, [ARRAY, 1, ty] + body + rest) == Ok(Read(Arr([Assemble(ty, d)]), rest))
  {
    var bs := [ARRAY, 1, ty] + body + rest;
    var tail := bs[2..];
    assert tail == [ty] + (body + rest);
    assert tail[1..] == body + rest;
    assert map[] + d == d;
    assert [] + rest == rest;
    assert DecodeMsg(f.fields, tail) == Ok(Read(Assemble(ty, d), rest));
    assert DecodeElems(0, f.fields, rest) == Ok(Read([], rest));
    assert [Assemble(ty, d)] + [] == [Assemble(ty, d)];
  }

  lemma BumpDecodes(f: Field, rest: seq<byte>)
    requires Typed([f])
    ensures DecodeField(f, Bump(f) + rest) == Ok(Read(BumpValue(f), rest))
  {
    assert f in [f];
    var bs := Bump(f) + rest;
    match f
    case IntField(_) => assert bs[1..5] == [1, 0, 0, 0] && bs[5..] == rest;
    case StringField(_) => assert bs[1..3] == [1, 0] && bs[3..4] == [0] && bs[4..] == rest;
    case ArrayField(_, fields) =>
      BlankBodyDecodes(fields);
      SingletonDecodes(f, STRUCT, BlankBody(fields), BlankFields(fields), rest);
  }

  ghost predicate Bumped(v: Msg) {
    v == Int(1) || v == Str([0]) || (v.Arr? && |v.elems| == 1)
  }

  /** The names of a layout. */
  ghost function Names(kids: Layout): set<string> {
    set f | f in kids :: f.name
  }

  lemma NamesCons(f: Field, kids: Layout)
    ensures Names([f] + kids) == {f.name} + Names(kids)
  {
  }

  /** Bumped fields decode to bumped values. */
  lemma {:induction false} BumpBodyDecodes(kids: Layout)
    requires Typed(kids)
    ensures Decodes(kids, BumpBody(kids), BumpFields(kids))
    decreases |kids|
  {
    if kids == [] {
      BlankBodyDecodes(kids);
    } else {
      var f := kids[0];
      assert Typed([f]) by { assert forall g :: g in [f] ==> g in kids; }
      BumpBodyDecodes(kids[1..]);
      assert Decodes([f] + kids[1..], Bump(f) + BumpBody(kids[1..]), map[f.name := BumpValue(f)] + BumpFields(kids[1..])) by {
        forall rest: seq<byte> {
          BumpDecodes(f, rest);
        }
        DecodesCons(f, Bump(f), BumpValue(f), kids[1..], BumpBody(kids[1..]), BumpFields(kids[1..]));
      }
      assert kids == [f] + kids[1..];
    }
  }

  lemma {:induction false} BumpFieldsAt(kids: Layout)
    requires Typed(kids)
    ensures BumpFields(kids).Keys == Names(kids)
    ensures forall n :: n in BumpFields(kids) ==> Bumped(BumpFields(kids)[n])
    decreases |kids|
  {
    if kids != [] {
      var f := kids[0];
      assert Typed([f]) by { assert forall g :: g in [f] ==> g in kids; }
      BumpValueBumped(f);
      BumpFieldsAt(kids[1..]);
      assert Names(kids) == {f.name} + Names(kids[1..]) by {
        NamesCons(f, kids[1..]);
        assert kids == [f] + kids[1..];
      }
      BumpedCons(f.name, BumpValue(f), BumpFields(kids[1..]));
    }
  }

  lemma BumpValueBumped(f: Field)
    requires Typed([f])
    ensures Bumped(BumpValue(f))
  {
    assert f in [f];
  }

  lemma BumpedCons(name: string, v: Msg, d: map<string, Msg>)
    requires Bumped(v) && forall n :: n in d ==> Bumped(d[n])
    ensures var d' := map[name := v] + d;
      d'.Keys == {name} + d.Keys && forall n :: n in d' ==> Bumped(d'[n])
  {
  }

  /** Blank fields of distinct names encode back to blank bytes. */
  lemma {:induction false} BlankReencodes(m: Msg, kids: Layout)
    requires m.Struct? && Typed(kids)
    requires forall f :: f in kids ==> f.name in m.fields && m.fields[f.name] == BlankValue(f)
    ensures EncodeFields(m, kids) == Ok(BlankBody(kids))
    decreases |kids|
  {
    if kids != [] {
      BlankReencodes(m, kids[1..]);
      BlankFieldReencodes(m, kids[0]);
    }
  }

  lemma BlankFieldReencodes(m: Msg, f: Field)
    requires m.Struct? && !f.UnsetField? && f.name in m.fields && m.fields[f.name] == BlankValue(f)
    ensures EncodeField(m, f) == Ok(Blank(f))
  {
    assert Le32(0) == [0, 0, 0, 0] && Le16(0) == [0, 0];
    assert [INT] + [0, 0, 0, 0] == [INT, 0, 0, 0, 0];
    assert [STRING] + [0, 0] + [] == [STRING, 0, 0];
    assert [ARRAY, 0] + [] == [ARRAY, 0];
  }

  lemma {:induction false} BlankFieldsAt(kids: Layout)
    requires Typed(kids) && DistinctNames(kids)
    ensures forall f :: f in kids ==> f.name in BlankFields(kids) && BlankFields(kids)[f.name] == BlankValue(f)
    ensures BlankFields(kids).Keys == Names(kids)
    decreases |kids|
  {
    if kids != [] {
      var f, others := kids[0], kids[1..];
      BlankFieldsAt(others);
      assert kids == [f] + others;
      NamesCons(f, others);
      var d := BlankFields(others);
      assert BlankFields(kids) == map[f.name := BlankValue(f)] + d;
      assert f.name !in d by {
        assert forall i :: 0 <= i < |others| ==> others[i] == kids[i + 1];
      }
      forall g | g in kids
        ensures g.name in BlankFields(kids) && BlankFields(kids)[g.name] == BlankValue(g)
      {
        assert g == f || g in others;
      }
    }
  }

  /** m carries the fields d. */
  ghost predicate Carries(m: Msg, d: map<string, Msg>) {
    m.Struct? && forall n :: n in d ==> n in m.fields && m.fields[n] == d[n]
  }

  /** No message that carries d encodes to body. */
  ghost predicate Unencodable(kids: Layout, body: seq<byte>, d: map<string, Msg>) {
    forall m: Msg :: Carries(m, d) ==> EncodeFields(m, kids) != Ok(body)
  }

  lemma EncodeFieldsCons(m: Msg, f: Field, kids: Layout)
    requires m.Struct? && EncodeFields(m, [f] + kids).Ok?
    ensures EncodeField(m, f).Ok? && EncodeFields(m, kids).Ok?
    ensures EncodeFields(m, [f] + kids).value == EncodeField(m, f).value + EncodeFields(m, kids).value
  {
  }

  /** A name that occurs again: decoding keeps only the later, bumped value. */
  lemma SpoilRepeated(f: Field, kids: Layout)
    requires Typed([f] + kids) && f.name in Names(kids)
    ensures Unencodable([f] + kids, Blank(f) + BumpBody(kids), map[f.name := BlankValue(f)] + BumpFields(kids))
  {
    assert f in [f] + kids;
    assert Typed(kids) by { assert forall g :: g in kids ==> g in [f] + kids; }
    BumpFieldsAt(kids);
    var d := map[f.name := BlankValue(f)] + BumpFields(kids);
    var body := Blank(f) + BumpBody(kids);
    assert f.name in d && Bumped(d[f.name]);
    assert body[1] == 0;
    forall m: Msg | Carries(m, d)
      ensures EncodeFields(m, [f] + kids) != Ok(body)
    {
      BumpedHead(m, f, kids);
    }
  }

  lemma BumpedHead(m: Msg, f: Field, kids: Layout)
    requires m.Struct? && f.name in m.fields && Bumped(m.fields[f.name])
    ensures EncodeFields(m, [f] + kids).Ok? ==>
      |EncodeFields(m, [f] + kids).value| > 1 && EncodeFields(m, [f] + kids).value[1] == 1
  {
    if EncodeFields(m, [f] + kids).Ok? {
      EncodeFieldsCons(m, f, kids);
      BumpedEncoding(m.fields[f.name], Kids(f));
    }
  }

  lemma BumpedEncoding(v: Msg, kids: Layout)
    requires Bumped(v)
    ensures Encode(v, kids).Ok? ==> |Encode(v, kids).value| > 1 && Encode(v, kids).value[1] == 1
  {
  }

  /** A blank field in front of a spoiled body. */
  lemma SpoilBehind(f: Field, kids: Layout, body: seq<byte>, d: map<string, Msg>)
    requires !f.UnsetField? && f.name !in d
    requires Unencodable(kids, body, d)
    ensures Unencodable([f] + kids, Blank(f) + body, map[f.name := BlankValue(f)] + d)
  {
    var d' := map[f.name := BlankValue(f)] + d;
    assert f.name in d' && forall n :: n in d ==> n in d' && d'[n] == d[n];
    forall m: Msg | Carries(m, d')
      ensures EncodeFields(m, [f] + kids) != Ok(Blank(f) + body)
    {
      BlankFieldReencodes(m, f);
      assert Carries(m, d);
      if EncodeFields(m, [f] + kids).Ok? {
        EncodeFieldsCons(m, f, kids);
        AppendCancel(EncodeFields(m, kids).value, body, Blank(f));
      }
    }
  }

  lemma AppendCancel(x: seq<byte>, y: seq<byte>, b: seq<byte>)
    ensures x + b == y + b ==> x == y
    ensures b + x == b + y ==> x == y
  {
    assert x == (x + b)[..|x|] && y == (y + b)[..|y|];
    assert x == (b + x)[|b|..] && y == (b + y)[|b|..];
  }

  /** An array whose one element does not encode, in front of blank fields. */
  lemma SpoilArray(f: Field, kids: Layout, first: seq<byte>, e: Msg)
    requires f.ArrayField? && Typed(kids) && DistinctNames(kids) && f.name !in Names(kids)
    requires Encode(Arr([e]), f.fields) != Ok(first)
    ensures Unencodable([f] + kids, first + BlankBody(kids), map[f.name := Arr([e])] + BlankFields(kids))
  {
    BlankFieldsAt(kids);
    var d := map[f.name := Arr([e])] + BlankFields(kids);
    assert f.name in d && d[f.name] == Arr([e]);
    assert forall g :: g in kids ==> g.name in d && d[g.name] == BlankValue(g);
    forall m: Msg | Carries(m, d)
      ensures EncodeFields(m, [f] + kids) != Ok(first + BlankBody(kids))
    {
      SpoilsMessage(m, f, kids, first, e);
    }
  }

  lemma SpoilsMessage(m: Msg, f: Field, kids: Layout, first: seq<byte>, e: Msg)
    requires f.ArrayField? && Typed(kids) && Encode(Arr([e]), f.fields) != Ok(first)
    requires m.Struct? && f.name in m.fields && m.fields[f.name] == Arr([e])
    requires forall g :: g in kids ==> g.name in m.fields && m.fields[g.name] == BlankValue(g)
    ensures EncodeFields(m, [f] + kids) != Ok(first + BlankBody(kids))
  {
    BlankReencodes(m, kids);
    if EncodeFields(m, [f] + kids).Ok? {
      EncodeFieldsCons(m, f, kids);
      AppendCancel(EncodeField(m, f).value, first, BlankBody(kids));
    }
  }

  lemma SingletonEncoding(e: Msg, kids: Layout, bs: seq<byte>)
    requires Encode(Arr([e]), kids) == Ok(bs)
    ensures Encode(e, kids).Ok? && bs == [ARRAY, 1] + Encode(e, kids).value
    ensures e.Struct? ==> EncodeFields(e, kids) == Ok(bs[3..])
  {
    assert [e][1..] == [];
    assert EncodeElems([e], kids) == Ok(Encode(e, kids).value + []);
    if e.Struct? {
      var body := EncodeFields(e, kids).value;
      assert bs == [ARRAY, 1] + ([e.ty % 256] + body);
      assert bs[3..] == body;
    }
  }

  lemma BlankInFront(f: Field, kids: Layout, body: seq<byte>, d: map<string, Msg>)
    requires !f.UnsetField? && Decodes(kids, body, d)
    ensures Decodes([f] + kids, Blank(f) + body, map[f.name := BlankValue(f)] + d)
  {
    forall rest: seq<byte> {
      BlankDecodes(f, rest);
    }
    DecodesCons(f, Blank(f), BlankValue(f), kids, body, d);
  }

  lemma SingletonInFront(f: Field, ty: byte, inner: seq<byte>, fields: map<string, Msg>, kids: Layout)
    requires f.ArrayField? && (ty >= STRUCT || (f.fields == [] && inner == [] && fields == map[]))
    requires Decodes(f.fields, inner, fields) && Typed(kids)
    ensures Decodes([f] + kids, [ARRAY, 1, ty] + inner + BlankBody(kids),
                    map[f.name := Arr([Assemble(ty, fields)])] + BlankFields(kids))
  {
    BlankBodyDecodes(kids);
    forall rest: seq<byte> {
      SingletonDecodes(f, ty, inner, fields, rest);
    }
    DecodesCons(f, [ARRAY, 1, ty] + inner, Arr([Assemble(ty, fields)]), kids, BlankBody(kids), BlankFields(kids));
  }

  /** Every typed layout that is not canonical has a body that decodes but is not what its fields encode to. */
  lemma {:induction false} Spoil(kids: Layout) returns (body: seq<byte>, d: map<string, Msg>)
    requires Typed(kids) && !Canonical(kids)
    ensures Decodes(kids, body, d) && Unencodable(kids, body, d) && d.Keys <= Names(kids)
    decreases kids, 0
  {
    var f, others := kids[0], kids[1..];
    assert kids == [f] + others;
    NamesCons(f, others);
    if f.name in Names(others) {
      body, d := Blank(f) + BumpBody(others), map[f.name := BlankValue(f)] + BumpFields(others);
      BumpBodyDecodes(others);
      BumpFieldsAt(others);
      BlankInFront(f, others, BumpBody(others), BumpFields(others));
      SpoilRepeated(f, others);
    } else if !Canonical(others) {
      var body', d' := Spoil(others);
      body, d := Blank(f) + body', map[f.name := BlankValue(f)] + d';
      BlankInFront(f, others, body', d');
      SpoilBehind(f, others, body', d');
    } else {
      BadHead(f, others);
      body, d := SpoilHead(f, others);
    }
  }

  /** An array without fields, or with a bad layout inside, in front of good fields. */
  lemma {:induction false} SpoilHead(f: Field, others: Layout) returns (body: seq<byte>, d: map<string, Msg>)
    requires Typed([f] + others) && f.ArrayField? && (f.fields == [] || !Canonical(f.fields))
    requires Typed(others) && Canonical(others) && f.name !in Names(others)
    ensures Decodes([f] + others, body, d) && Unencodable([f] + others, body, d) && d.Keys <= {f.name} + Names(others)
    decreases f, 1
  {
    var ty: byte, inner: seq<byte>, fields: map<string, Msg> := INT, [], map[];
    if f.fields == [] {
      BlankBodyDecodes([]);
      assert Encode(Hollow(INT), []).Err?;
      assert Encode(Arr([Hollow(INT)]), []).Err?;
    } else {
      assert f in [f] + others;
      ty := STRUCT;
      inner, fields := Spoil(f.fields);
      SpoiledElement(f.fields, inner, fields);
    }
    body, d := [ARRAY, 1, ty] + inner + BlankBody(others), map[f.name := Arr([Assemble(ty, fields)])] + BlankFields(others);
    SingletonInFront(f, ty, inner, fields, others);
    SpoilArray(f, others, [ARRAY, 1, ty] + inner, Assemble(ty, fields));
    BlankFieldsAt(others);
  }

  lemma SpoiledElement(kids: Layout, inner: seq<byte>, fields: map<string, Msg>)
    requires Unencodable(kids, inner, fields)
    ensures Encode(Arr([Struct(STRUCT, fields)]), kids) != Ok([ARRAY, 1, STRUCT] + inner)
  {
    var e := Struct(STRUCT, fields);
    assert Carries(e, fields);
    if Encode(Arr([e]), kids).Ok? {
      SingletonEncoding(e, kids, Encode(Arr([e]), kids).value);
      assert ([ARRAY, 1, STRUCT] + inner)[3..] == inner;
    }
  }

  lemma BadHead(f: Field, kids: Layout)
    requires !Canonical([f] + kids) && Canonical(kids) && f.name !in Names(kids)
    ensures f.ArrayField? && (f.fields == [] || !Canonical(f.fields))
  {
  }

  /**
   * Every byte string that decodes, with a message type number, encodes back to the bytes that were read if and only if
   * names are distinct and no array layout is empty, at every level.
   */
  lemma ReencodesIff(kids: Layout)
    requires Typed(kids)
    ensures (forall bs: seq<byte> :: DecodeMsg(kids, bs).Ok? && bs[0] >= STRUCT ==> Reencodes(kids, bs)) <==> Canonical(kids)
  {
    if Canonical(kids) {
      forall bs: seq<byte> | DecodeMsg(kids, bs).Ok? && bs[0] >= STRUCT
        ensures Reencodes(kids, bs)
      {
        EncodeDecode(kids, bs);
      }
    } else {
      var bs := SpoiledMessage(kids);
    }
  }

  lemma SpoiledMessage(kids: Layout) returns (bs: seq<byte>)
    requires Typed(kids) && !Canonical(kids)
    ensures DecodeMsg(kids, bs).Ok? && bs[0] >= STRUCT && !Reencodes(kids, bs)
  {
    var body, d := Spoil(kids);
    bs := [STRUCT] + body;
    assert bs[1..] == body + [];
    assert DecodeFields(STRUCT, map[], kids, body + []) == Ok(Read(map[] + d, []));
    assert map[] + d == d;
    var m := Struct(STRUCT, d);
    assert DecodeMsg(kids, bs) == Ok(Read(m, []));
    assert Carries(m, d);
    if EncodeFields(m, kids).Ok? {
      var body' := EncodeFields(m, kids).value;
      assert ([STRUCT] + body')[1..] == body';
      assert [STRUCT] + body' + [] == [STRUCT] + body';
    }
  }
}
