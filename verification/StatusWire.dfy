// The status reply end to end: from the server's table through the codec and the stream to the client's mirror.
module StatusWire {
  import opened Bytes
  import opened Layouts
  import opened Messages
  import opened SchemaParser
  import opened Registry
  import opened Framing
  import opened LocoTable
  import opened StatusMirror

  const ENTRY_LAYOUT: Layout := [IntField("addr"), IntField("speed"), IntField("functions")]
  const STATUS_LAYOUT: Layout := [ArrayField("info", ENTRY_LAYOUT)]

  /** The schema text of the layout, piece by piece: info:A{addr:I,speed:I,functions:I} */
  const ENTRY_TEXT := "addr:I" + "," + ("speed:I" + "," + "functions:I")
  const STATUS_TEXT := "info" + ":" + ("A{" + (ENTRY_TEXT + "}"))

  lemma EntryText()
    ensures PrintLayout(ENTRY_LAYOUT) == ENTRY_TEXT
  {
  }

  lemma StatusText()
    ensures PrintLayout(STATUS_LAYOUT) == STATUS_TEXT
  {
    EntryText();
    var f := ArrayField("info", ENTRY_LAYOUT);
    assert PrintType(f) == "A{" + (PrintLayout(ENTRY_LAYOUT) + "}");
    assert PrintLayout(STATUS_LAYOUT) == PrintField(f) == "info" + ":" + PrintType(f);
  }

  lemma EntryLayoutCanonical()
    ensures DistinctNames(ENTRY_LAYOUT) && Canonical(ENTRY_LAYOUT)
    ensures NonEmptyArrays(ENTRY_LAYOUT) && ArraysLast(ENTRY_LAYOUT)
  {
    assert forall f :: f in ENTRY_LAYOUT ==> f.IntField?;
    assert ENTRY_LAYOUT[0].name[0] == 'a' && ENTRY_LAYOUT[1].name[0] == 's' && ENTRY_LAYOUT[2].name[0] == 'f';
  }

  lemma EntryLayoutPrintable()
    ensures Printable(ENTRY_LAYOUT)
  {
    assert CleanName("addr") && CleanName("speed") && CleanName("functions");
  }

  lemma StatusLayoutCanonical()
    ensures Canonical(STATUS_LAYOUT)
    ensures Printable(STATUS_LAYOUT) && NonEmptyArrays(STATUS_LAYOUT) && ArraysLast(STATUS_LAYOUT)
  {
    EntryLayoutCanonical();
    EntryLayoutPrintable();
    assert forall f :: f in STATUS_LAYOUT ==> f == ArrayField("info", ENTRY_LAYOUT);
  }

  /** The layout is what the schema line of STATUS_REPLY parses to. */
  lemma StatusSchema()
    ensures ParseLayout(STATUS_TEXT).Ok? && ParseLayout(STATUS_TEXT).value.value == STATUS_LAYOUT
  {
    StatusText();
    StatusLayoutCanonical();
    TypedAndClean(STATUS_LAYOUT);
    PrintHasNoNul(STATUS_LAYOUT);
    SchemaRoundTripIff(STATUS_LAYOUT);
  }

  function EntryMsg(info: Info): Msg {
    Struct(STRUCT, map["addr" := Int(info.addr), "speed" := Int(info.speed), "functions" := Int(info.functions)])
  }

  function EntryMsgs(infos: seq<Info>): (ms: seq<Msg>)
    ensures |ms| == |infos| && forall i :: 0 <= i < |infos| ==> ms[i] == EntryMsg(infos[i])
  {
    seq(|infos|, i requires 0 <= i < |infos| => EntryMsg(infos[i]))
  }

  /** The reply message the server builds. */
  function ReplyMsg(ty: nat, infos: seq<Info>): Msg {
    Struct(ty, map["info" := Arr(EntryMsgs(infos))])
  }

  /** The values the client reads out of one element. */
  function InfoIn(m: Msg): Result<Info> {
    if !m.Struct? then Err(NotAStruct)
    else if "addr" !in m.fields || "speed" !in m.fields || "functions" !in m.fields then Err(FieldTypeMismatch)
    else if !m.fields["addr"].Int? || !m.fields["speed"].Int? || !m.fields["functions"].Int? then Err(FieldTypeMismatch)
    else Ok(Info(m.fields["addr"].i, m.fields["speed"].i, m.fields["functions"].i))
  }

  function InfosOfElems(elems: seq<Msg>): Result<seq<Info>> {
    if elems == [] then Ok([]) else
    var first :- InfoIn(elems[0]);
    var others :- InfosOfElems(elems[1..]);
    Ok([first] + others)
  }

  function InfosIn(m: Msg): Result<seq<Info>> {
    if !m.Struct? then Err(NotAStruct)
    else if "info" !in m.fields || !m.fields["info"].Arr? then Err(FieldTypeMismatch)
    else InfosOfElems(m.fields["info"].elems)
  }

  lemma {:induction false} InfosRoundTrip(infos: seq<Info>)
    ensures InfosOfElems(EntryMsgs(infos)) == Ok(infos)
    decreases |infos|
  {
    if infos != [] {
      assert EntryMsgs(infos)[1..] == EntryMsgs(infos[1..]);
      InfosRoundTrip(infos[1..]);
      assert infos == [infos[0]] + infos[1..];
    }
  }

  lemma EntryEncoding(info: Info)
    ensures Fits(EntryMsg(info), ENTRY_LAYOUT) && Project(EntryMsg(info), ENTRY_LAYOUT) == EntryMsg(info)
    ensures Encode(EntryMsg(info), ENTRY_LAYOUT).Ok? && |Encode(EntryMsg(info), ENTRY_LAYOUT).value| == 16
  {
    var m := EntryMsg(info);
    var a, b, c := ENTRY_LAYOUT[0], ENTRY_LAYOUT[1], ENTRY_LAYOUT[2];
    assert ENTRY_LAYOUT[1..] == [b, c] && [b, c][1..] == [c] && [c][1..] == [];
    assert EncodeField(m, a).Ok? && |EncodeField(m, a).value| == 5;
    assert EncodeField(m, b).Ok? && |EncodeField(m, b).value| == 5;
    assert EncodeField(m, c).Ok? && |EncodeField(m, c).value| == 5;
    assert EncodeFields(m, [c]).Ok? && |EncodeFields(m, [c]).value| == 5;
    assert EncodeFields(m, [b, c]).Ok? && |EncodeFields(m, [b, c]).value| == 10;
    var m1 := map["addr" := Int(info.addr)];
    var m2 := m1["speed" := Int(info.speed)];
    var m3 := m2["functions" := Int(info.functions)];
    assert ProjectFields(m, m3, []) == m3;
    assert ProjectFields(m, m2, [c]) == m3;
    assert ProjectFields(m, m1, [b, c]) == m3;
    assert map[]["addr" := Int(info.addr)] == m1;
    assert ProjectFields(m, map[], ENTRY_LAYOUT) == m3;
    assert m3 == map["addr" := Int(info.addr), "speed" := Int(info.speed), "functions" := Int(info.functions)];
  }

  lemma {:induction false} EntriesEncoding(infos: seq<Info>)
    ensures EncodeElems(EntryMsgs(infos), ENTRY_LAYOUT).Ok?
    ensures |EncodeElems(EntryMsgs(infos), ENTRY_LAYOUT).value| == 16 * |infos|
    ensures ProjectElems(EntryMsgs(infos), ENTRY_LAYOUT) == EntryMsgs(infos)
    ensures forall e :: e in EntryMsgs(infos) ==> Fits(e, ENTRY_LAYOUT)
    decreases |infos|
  {
    if infos != [] {
      var ms := EntryMsgs(infos);
      assert ms[1..] == EntryMsgs(infos[1..]);
      EntriesEncoding(infos[1..]);
      EntryEncoding(infos[0]);
      assert ms == [ms[0]] + ms[1..];
    }
  }

  lemma ReplyEncoding(ty: nat, infos: seq<Info>)
    requires STRUCT < ty < 256
    ensures var m := ReplyMsg(ty, infos);
      && EncodeElems(EntryMsgs(infos), ENTRY_LAYOUT).Ok?
      && Encode(m, STATUS_LAYOUT) == Ok([ty, ARRAY, |infos| % 256] + EncodeElems(EntryMsgs(infos), ENTRY_LAYOUT).value)
      && Project(m, STATUS_LAYOUT) == m
      && (Fits(m, STATUS_LAYOUT) <==> |infos| < 256)
  {
    EntriesEncoding(infos);
    var m := ReplyMsg(ty, infos);
    var f := STATUS_LAYOUT[0];
    var body := EncodeElems(EntryMsgs(infos), ENTRY_LAYOUT).value;
    assert STATUS_LAYOUT[1..] == [];
    assert EncodeField(m, f) == Ok([ARRAY, |infos| % 256] + body);
    assert EncodeFields(m, STATUS_LAYOUT) == Ok([ARRAY, |infos| % 256] + body + []);
    assert [ty] + ([ARRAY, |infos| % 256] + body + []) == [ty, ARRAY, |infos| % 256] + body;
    assert ProjectFields(m, map[], STATUS_LAYOUT) == map["info" := Arr(EntryMsgs(infos))];
    assert f in STATUS_LAYOUT;
  }

  /** A status reply arrives as it was sent if and only if it has at most 255 elements. */
  lemma ReplyArrivesIff(entries: Entries, ty: nat, infos: seq<Info>, rest: seq<byte>)
    requires STRUCT < ty < 256 && LayoutOf(entries, ty) == Ok(STATUS_LAYOUT)
    requires 16 * |infos| < 0x7FFF_FFF0
    ensures EncodeTop(entries, ReplyMsg(ty, infos)).Ok?
    ensures ReadMsg(entries, Frame(EncodeTop(entries, ReplyMsg(ty, infos)).value) + rest) == Ok(Read(ReplyMsg(ty, infos), rest))
      <==> |infos| <= 255
  {
    var m := ReplyMsg(ty, infos);
    ReplyEncoding(ty, infos);
    EntriesEncoding(infos);
    var bs := EncodeTop(entries, m).value;
    assert |bs| == 3 + 16 * |infos|;
    if |infos| <= 255 {
      MessageRoundTrip(entries, m, rest);
    } else if |bs| <= MAX_MESSAGE_SIZE {
      FrameIff(bs, rest);
      StatusLayoutCanonical();
      RoundTripIff(m, STATUS_LAYOUT, []);
      assert bs + [] == bs;
      if DecodeMsg(STATUS_LAYOUT, bs).Ok? && DecodeMsg(STATUS_LAYOUT, bs).value.value == m {
        EncodeDecode(STATUS_LAYOUT, bs);
      }
    } else {
      LongFrame(bs, rest);
    }
  }

  lemma LongFrame(bs: seq<byte>, rest: seq<byte>)
    requires MAX_MESSAGE_SIZE < |bs| < 0x8000_0000
    ensures ReadFrame(Frame(bs) + rest) == Err(InvalidSize)
  {
    var s := Frame(bs) + rest;
    assert Wrap32(|bs|) == |bs|;
    Le32RoundTrip(|bs|);
    assert s[..4] == Le32(|bs|);
  }

  /** With exactly 256 changed locos the element count wraps to 0: the client decodes an empty reply. */
  lemma TooManyChanges(ty: nat, infos: seq<Info>)
    requires STRUCT < ty < 256 && |infos| == 256
    ensures Encode(ReplyMsg(ty, infos), STATUS_LAYOUT).Ok?
    ensures var r := DecodeMsg(STATUS_LAYOUT, Encode(ReplyMsg(ty, infos), STATUS_LAYOUT).value);
      r.Ok? && r.value.value == ReplyMsg(ty, [])
  {
    ReplyEncoding(ty, infos);
    var f := STATUS_LAYOUT[0];
    var body := EncodeElems(EntryMsgs(infos), ENTRY_LAYOUT).value;
    var bs := [ty, ARRAY, 0] + body;
    assert bs[1..] == [ARRAY, 0] + body && bs[1..][2..] == body;
    assert DecodeField(f, bs[1..]) == Ok(Read(Arr([]), body));
    assert STATUS_LAYOUT[1..] == [];
    assert DecodeFields(ty, map["info" := Arr([])], [], body) == Ok(Read(map["info" := Arr([])], body));
    assert map[]["info" := Arr([])] == map["info" := Arr([])];
    assert DecodeFields(ty, map[], STATUS_LAYOUT, bs[1..]) == Ok(Read(map["info" := Arr([])], body));
    assert EntryMsgs([]) == [];
  }

  /**
   * The whole path: the server collects what changed since its last reply to this client, encodes and frames it; the
   * client reads it from the stream, in chunks of any size, and applies it. Every changed entry is then what the
   * server has, every other entry is untouched, and the stream stands at the next message.
   */
  lemma StatusEndToEnd(entries: Entries, ty: nat, t: Table, last: seq<Last>, m: seq<Seen>, rest: seq<byte>)
    requires STRUCT < ty < 256 && LayoutOf(entries, ty) == Ok(STATUS_LAYOUT)
    requires |last| == |t| && Loaded(t, m) && DistinctAddrs(t) && |t| <= 255
    ensures EncodeTop(entries, ReplyMsg(ty, Changes(t, last))).Ok?
    ensures var r := ReadMsg(entries, Frame(EncodeTop(entries, ReplyMsg(ty, Changes(t, last))).value) + rest);
      && r.Ok? && r.value.rest == rest
      && InfosIn(r.value.value).Ok?
      && ApplyInfos(m, InfosIn(r.value.value).value) == Ok(Merge(t, last, m))
  {
    var infos := Changes(t, last);
    ChangesLength(t, last);
    ReplyArrivesIff(entries, ty, infos, rest);
    InfosRoundTrip(infos);
    ReplyMergesAll(t, last, m);
  }

  lemma {:induction false} ChangesLength(t: Table, last: seq<Last>)
    requires |last| == |t|
    ensures |Changes(t, last)| <= |t|
    decreases |t|
  {
    if t != [] {
      ChangesLength(t[1..], last[1..]);
    }
  }
}
