// The table of message types: loading the schema line by line, and the two lookups.
module Registry {
  import opened Bytes
  import opened Util
  import opened Layouts
  import opened SchemaParser

  /** A message type: its number and its layout. Number 0 marks an entry that a failed lookup by name left behind. */
  datatype Entry = Entry(ty: nat, fields: Layout)

  type Entries = map<string, Entry>

  /** The state of the loading loop; `failed` means that a line threw and the loop was left. */
  datatype Loading = Loading(entries: Entries, next: nat, hash: int32, failed: bool)

  const START := Loading(map[], STRUCT + 1, 0, false)

  function SkipSpaces(s: string): (t: string)
    ensures |t| <= |s|
  {
    if s != [] && IsSpace(s[0]) then SkipSpaces(s[1..]) else s
  }

  /** Sum of the bytes of a line. */
  function LineHash(s: string): nat {
    if s == [] then 0 else s[0] as int % 256 + LineHash(s[1..])
  }

  predicate IsComment(line: string) {
    line != [] && line[0] == '#'
  }

  function LoadLine(st: Loading, line: string): (st': Loading)
    requires !st.failed
  {
    var buffer := CString(line);
    if IsComment(buffer) then st
    else LoadText(st.(hash := Wrap32(st.hash + LineHash(buffer))), SkipSpaces(buffer))
  }

  /** A line without its leading blanks, already counted. */
  function LoadText(st: Loading, text: string): (st': Loading)
    requires !st.failed
    ensures st'.hash == st.hash
  {
    if text == [] then st else
    var k := Scan(text, '=');
    if k == |text| then st.(failed := true) else
    match ParseLayout(text[k + 1..])
    case Err(_) => st.(failed := true)
    case Ok(p) => st.(entries := st.entries[text[..k] := Entry(st.next, p.value)], next := st.next + 1)
  }

  function LoadLines(st: Loading, lines: seq<string>): (st': Loading)
    decreases |lines|
  {
    if lines == [] || st.failed then st else LoadLines(LoadLine(st, lines[0]), lines[1..])
  }

  // ----- the table as an object -----

  class MessageLayouts {
    var entries: Entries
    var protocolHash: int32
    var loaded: bool

    /** Type numbers are unique; before loading there are only entries that failed lookups left behind. */
    ghost predicate Valid()
      reads this
    {
      Sound(entries) && (!loaded ==> forall n :: n in entries ==> entries[n].ty == 0)
    }

    constructor ()
      ensures Valid() && entries == map[] && protocolHash == -1 && !loaded
    {
      entries, protocolHash, loaded := map[], -1, false;
    }

    /** Loading happens once; a bad line keeps the entries loaded so far and leaves the hash alone. */
    method Load(lines: seq<string>) returns (r: Result<int32>)
      requires Valid()
      modifies this
      ensures Valid() && loaded
      ensures old(loaded) ==> r == Ok(0) && entries == old(entries) && protocolHash == old(protocolHash)
      ensures !old(loaded) ==>
        var st := LoadLines(START.(entries := old(entries)), lines);
        && entries == st.entries
        && if st.failed then r == Err(SyntaxError) && protocolHash == old(protocolHash)
           else r == Ok(st.hash) && protocolHash == st.hash
      ensures !old(loaded) ==> forall n :: n in entries && n !in old(entries) ==> entries[n].ty > STRUCT
    {
      if loaded {
        return Ok(0);
      }
      loaded := true;
      LoadKeepsSound(START.(entries := entries), lines);
      LoadNumbers(START.(entries := entries), lines);
      var hash: int32 := 0;
      var typeNr: nat := STRUCT + 1;
      assert lines[0..] == lines;
      for i := 0 to |lines|
        invariant loaded && protocolHash == old(protocolHash)
        invariant LoadLines(START.(entries := old(entries)), lines)
          == LoadLines(Loading(entries, typeNr, hash, false), lines[i..])
      {
        assert lines[i..][0] == lines[i] && lines[i..][1..] == lines[i + 1..];
        var failed;
        typeNr, hash, failed := LoadOne(lines[i], typeNr, hash);
        if failed {
          return Err(SyntaxError);
        }
      }
      protocolHash := hash;
      r := Ok(hash);
    }

    /** One round of the loading loop. */
    method LoadOne(line: string, typeNr: nat, hash: int32) returns (typeNr': nat, hash': int32, failed: bool)
      modifies this`entries
      ensures Loading(entries, typeNr', hash', failed) == LoadLine(Loading(old(entries), typeNr, hash, false), line)
    {
      typeNr', hash', failed := typeNr, hash, false;
      var buffer := CString(line);
      if IsComment(buffer) {
        return;
      }
      hash' := Wrap32(hash + LineHash(buffer));
      var text := SkipSpaces(buffer);
      if text == [] {
        return;
      }
      var k := Scan(text, '=');
      if k == |text| {
        failed := true;
        return;
      }
      var layout, _ := ParseMessageLayout(text, k + 1);
      if layout.Err? {
        failed := true;
        return;
      }
      entries := entries[text[..k] := Entry(typeNr, layout.value)];
      typeNr' := typeNr + 1;
    }

    /** Looking up an unknown name fails, and leaves an entry without a type behind. */
    method MessageTypeID(name: string) returns (r: Result<nat>)
      requires Valid()
      modifies this
      ensures Valid() && protocolHash == old(protocolHash) && loaded == old(loaded)
      ensures entries == if name in old(entries) then old(entries) else old(entries)[name := Entry(0, [])]
      ensures r == if name in old(entries) && old(entries)[name].ty != 0 then Ok(old(entries)[name].ty) else Err(UnknownName)
    {
      if name !in entries {
        entries := entries[name := Entry(0, [])];
      }
      if entries[name].ty == 0 {
        return Err(UnknownName);
      }
      r := Ok(entries[name].ty);
    }

    /** The search through the table for a type number. */
    method GetMessageLayout(ty: nat) returns (r: Result<Layout>)
      requires loaded && Valid()
      ensures r == LayoutOf(entries, ty)
    {
      if ty <= STRUCT {
        return Err(NoLayout);
      }
      var names := entries.Keys;
      while names != {}
        invariant names <= entries.Keys
        invariant forall n :: n in entries && n !in names ==> entries[n].ty != ty
        decreases names
      {
        var n :| n in names;
        if entries[n].ty == ty {
          UniqueType(entries, ty, n);
          return Ok(entries[n].fields);
        }
        names := names - {n};
      }
      r := Err(NoLayout);
    }
  }

  // ----- what holds of every loaded table -----

  /** Type numbers in use are above STRUCT and belong to one name each. */
  ghost predicate Sound(entries: Entries) {
    && (forall n :: n in entries ==> entries[n].ty == 0 || entries[n].ty > STRUCT)
    && (forall n, n' :: n in entries && n' in entries && n != n' && entries[n].ty != 0 ==> entries[n].ty != entries[n'].ty)
  }

  ghost predicate Below(entries: Entries, bound: nat) {
    forall n :: n in entries ==> entries[n].ty < bound
  }

  ghost function LayoutOf(entries: Entries, ty: nat): Result<Layout> {
    if ty > STRUCT && exists n :: n in entries && entries[n].ty == ty then
      var n :| n in entries && entries[n].ty == ty;
      Ok(entries[n].fields)
    else Err(NoLayout)
  }

  lemma UniqueType(entries: Entries, ty: nat, n: string)
    requires Sound(entries) && n in entries && entries[n].ty == ty && ty > STRUCT
    ensures LayoutOf(entries, ty) == Ok(entries[n].fields)
  {
  }

  lemma {:induction false} LoadKeepsSound(st: Loading, lines: seq<string>)
    requires Sound(st.entries) && Below(st.entries, st.next) && st.next > STRUCT
    ensures Sound(LoadLines(st, lines).entries)
    decreases |lines|
  {
    if lines != [] && !st.failed {
      LoadKeepsSound(LoadLine(st, lines[0]), lines[1..]);
    }
  }

  /** An entry is what it was before loading, or it has a number handed out by the loading loop. */
  lemma {:induction false} LoadNumbers(st: Loading, lines: seq<string>)
    ensures var st' := LoadLines(st, lines);
      && st'.next >= st.next
      && forall n :: n in st'.entries ==>
        (n in st.entries && st'.entries[n] == st.entries[n]) || st.next <= st'.entries[n].ty < st'.next
    decreases |lines|
  {
    if lines != [] && !st.failed {
      LoadNumbers(LoadLine(st, lines[0]), lines[1..]);
    }
  }

  /**
   * For every schema, whether it loads to its end or not, every name has a number above STRUCT, no two names share one,
   * and the number of a name leads back to its layout.
   */
  lemma LoadedTable(lines: seq<string>)
    ensures var entries := LoadLines(START, lines).entries;
      && (forall n :: n in entries ==> entries[n].ty > STRUCT)
      && (forall n, n' :: n in entries && n' in entries && entries[n].ty == entries[n'].ty ==> n == n')
      && (forall n :: n in entries ==> LayoutOf(entries, entries[n].ty) == Ok(entries[n].fields))
  {
    LoadKeepsSound(START, lines);
    LoadNumbers(START, lines);
    var entries := LoadLines(START, lines).entries;
    forall n | n in entries
      ensures LayoutOf(entries, entries[n].ty) == Ok(entries[n].fields)
    {
      UniqueType(entries, entries[n].ty, n);
    }
  }

  /** The part of a line that loading looks at. */
  function Text(line: string): string {
    SkipSpaces(CString(line))
  }

  /** A line that has to be a definition: neither a comment nor blank. */
  predicate IsDefinition(line: string) {
    !IsComment(CString(line)) && Text(line) != []
  }

  function DefinedName(line: string): string {
    Text(line)[..Scan(Text(line), '=')]
  }

  ghost predicate Defines(line: string, name: string, fields: Layout) {
    var k := Scan(Text(line), '=');
    && IsDefinition(line) && DefinedName(line) == name && k < |Text(line)|
    && ParseLayout(Text(line)[k + 1..]).Ok? && ParseLayout(Text(line)[k + 1..]).value.value == fields
  }

  function Definitions(lines: seq<string>): nat {
    if lines == [] then 0 else (if IsDefinition(lines[0]) then 1 else 0) + Definitions(lines[1..])
  }

  lemma {:induction false} LoadCounts(st: Loading, lines: seq<string>)
    requires !LoadLines(st, lines).failed
    ensures !st.failed && LoadLines(st, lines).next == st.next + Definitions(lines)
    decreases |lines|
  {
    if lines != [] {
      LoadCounts(LoadLine(st, lines[0]), lines[1..]);
    }
  }

  /** Lines that define other names leave a name as it was: absent, or with its number and layout. */
  lemma {:induction false} OtherNames(st: Loading, lines: seq<string>, name: string)
    requires forall k :: 0 <= k < |lines| ==> IsDefinition(lines[k]) ==> DefinedName(lines[k]) != name
    ensures var entries := LoadLines(st, lines).entries;
      (name in entries <==> name in st.entries) && (name in entries ==> entries[name] == st.entries[name])
    decreases |lines|
  {
    if lines != [] && !st.failed {
      OtherNames(LoadLine(st, lines[0]), lines[1..], name);
    }
  }

  /**
   * In a schema that loads, the last line that defines a name gives it its layout, and its number counts the
   * definitions in front of that line.
   */
  lemma LastDefinitionWins(a: seq<string>, line: string, b: seq<string>, name: string, fields: Layout)
    requires !LoadLines(START, a + ([line] + b)).failed && Defines(line, name, fields)
    requires forall k :: 0 <= k < |b| ==> IsDefinition(b[k]) ==> DefinedName(b[k]) != name
    ensures var entries := LoadLines(START, a + ([line] + b)).entries;
      name in entries && entries[name] == Entry(STRUCT + 1 + Definitions(a), fields)
  {
    LoadAppend(START, a, [line] + b);
    var st := LoadLines(START, a);
    LoadAppend(st, [line], b);
    assert !st.failed;
    LoadCounts(START, a);
    LoadOneLine(st, line);
    OtherNames(LoadLine(st, line), b, name);
  }

  /** A failed lookup by name changes no layout and keeps the table sound. */
  lemma LookupKeepsTable(entries: Entries, name: string, ty: nat)
    requires Sound(entries) && name !in entries
    ensures Sound(entries[name := Entry(0, [])])
    ensures LayoutOf(entries[name := Entry(0, [])], ty) == LayoutOf(entries, ty)
  {
    var after := entries[name := Entry(0, [])];
    assert Sound(after);
    if ty > STRUCT && exists n :: n in entries && entries[n].ty == ty {
      var n :| n in entries && entries[n].ty == ty;
      assert n in after && after[n] == entries[n];
      UniqueType(entries, ty, n);
      UniqueType(after, ty, n);
    }
  }

  lemma {:induction false} LoadAppend(st: Loading, a: seq<string>, b: seq<string>)
    ensures LoadLines(st, a + b) == LoadLines(LoadLines(st, a), b)
    decreases |a|
  {
    if a == [] {
      assert a + b == b;
    } else if !st.failed {
      assert (a + b)[0] == a[0] && (a + b)[1..] == a[1..] + b;
      LoadAppend(LoadLine(st, a[0]), a[1..], b);
    }
  }

  /** Inserting or deleting a comment line anywhere changes neither the table nor the hash. */
  lemma CommentsDoNotMatter(a: seq<string>, comment: string, b: seq<string>)
    requires comment != [] && comment[0] == '#'
    ensures LoadLines(START, a + [comment] + b) == LoadLines(START, a + b)
  {
    var st := LoadLines(START, a);
    LoadAppend(START, a, [comment] + b);
    LoadAppend(START, a, b);
    assert a + [comment] + b == a + ([comment] + b);
    assert ([comment] + b)[1..] == b;
    if !st.failed {
      assert IsComment(CString(comment));
      assert LoadLine(st, comment) == st;
    }
  }

  /** The sum of the bytes of all lines that are not comments. */
  function FileHash(lines: seq<string>): nat {
    if lines == [] then 0 else CountedHash(lines[0]) + FileHash(lines[1..])
  }

  function CountedHash(line: string): nat {
    var buffer := CString(line);
    if IsComment(buffer) then 0 else LineHash(buffer)
  }

  /** The hash that client and server compare is the 32-bit sum over the whole file. */
  lemma {:induction false} HashIsSum(st: Loading, lines: seq<string>)
    requires !LoadLines(st, lines).failed
    ensures LoadLines(st, lines).hash == Wrap32(st.hash + FileHash(lines))
    decreases |lines|
  {
    if lines == [] {
      assert Wrap32(st.hash) == st.hash;
    } else {
      var st' := LoadLine(st, lines[0]);
      assert LoadLines(st, lines) == LoadLines(st', lines[1..]);
      HashIsSum(st', lines[1..]);
      LineHashAdds(st, lines[0], FileHash(lines[1..]));
    }
  }

  lemma LineHashAdds(st: Loading, line: string, others: nat)
    requires !st.failed
    ensures Wrap32(LoadLine(st, line).hash + others) == Wrap32(st.hash + (CountedHash(line) + others))
  {
    assert CountedHash(line) == 0 ==> Wrap32(st.hash) == st.hash;
    WrapSum(st.hash + CountedHash(line), others);
  }

  /** Two schemas that load have the same hash if and only if their byte sums agree modulo 2^32. */
  lemma SameHashIff(a: seq<string>, b: seq<string>)
    requires !LoadLines(START, a).failed && !LoadLines(START, b).failed
    ensures LoadLines(START, a).hash == LoadLines(START, b).hash
      <==> (FileHash(a) - FileHash(b)) % 0x1_0000_0000 == 0
  {
    HashIsSum(START, a);
    HashIsSum(START, b);
    WrapEqualIff(FileHash(a), FileHash(b));
  }

  lemma {:induction false} FileHashAppend(a: seq<string>, b: seq<string>)
    ensures FileHash(a + b) == FileHash(a) + FileHash(b)
    decreases |a|
  {
    if a == [] {
      assert a + b == b;
    } else {
      assert (a + b)[0] == a[0] && (a + b)[1..] == a[1..] + b;
      FileHashAppend(a[1..], b);
    }
  }

  lemma {:induction false} FileHashPermuted(a: seq<string>, b: seq<string>)
    requires multiset(a) == multiset(b)
    ensures FileHash(a) == FileHash(b)
    decreases |a|
  {
    if a == [] {
      assert |multiset(a)| == |multiset(b)|;
    } else {
      var i := SameHead(a, b);
      HashWithout(b, i);
      FileHashPermuted(a[1..], b[..i] + b[i + 1..]);
    }
  }

  lemma HashWithout(lines: seq<string>, i: nat)
    requires i < |lines|
    ensures FileHash(lines) == CountedHash(lines[i]) + FileHash(lines[..i] + lines[i + 1..])
  {
    var before, tail := lines[..i], lines[i..];
    assert lines == before + tail && tail[0] == lines[i] && tail[1..] == lines[i + 1..];
    FileHashAppend(before, tail);
    FileHashAppend(before, tail[1..]);
  }

  /** Lines in another order give the same hash, as long as both schemas load. */
  lemma HashIgnoresOrder(a: seq<string>, b: seq<string>)
    requires multiset(a) == multiset(b) && !LoadLines(START, a).failed && !LoadLines(START, b).failed
    ensures LoadLines(START, a).hash == LoadLines(START, b).hash
  {
    FileHashPermuted(a, b);
    SameHashIff(a, b);
  }

  lemma EmptyDefinition(st: Loading, c: char)
    requires !st.failed && 'A' <= c <= 'Z'
    ensures LoadLine(st, [c] + "=")
      == Loading(st.entries[[c] := Entry(st.next, [])], st.next + 1, Wrap32(st.hash + LineHash([c] + "=")), false)
  {
    var line := [c] + "=";
    ScanFinds([c], '=', "");
    assert [c] + ['='] + "" == line;
    assert '\0' !in line;
    assert CString(line) == line;
    assert line[..1] == [c] && line[2..] == "";
  }

  /** Swapped lines go unnoticed although they exchange the type numbers of the two messages. */
  lemma SwappedSchema()
    ensures var s1, s2 := LoadLines(START, ["A="] + ["B="]), LoadLines(START, ["B="] + ["A="]);
      && !s1.failed && !s2.failed && s1.hash == s2.hash
      && s1.entries == map["A" := Entry(5, []), "B" := Entry(6, [])]
      && s2.entries == map["B" := Entry(5, []), "A" := Entry(6, [])]
  {
    assert ['A'] + "=" == "A=" && ['B'] + "=" == "B=";
    EmptyDefinition(START, 'A');
    EmptyDefinition(START, 'B');
    EmptyDefinition(LoadLine(START, "A="), 'B');
    EmptyDefinition(LoadLine(START, "B="), 'A');
    LoadAppend(START, ["A="], ["B="]);
    LoadAppend(START, ["B="], ["A="]);
    LoadOneLine(START, "A=");
    LoadOneLine(START, "B=");
    LoadOneLine(LoadLine(START, "A="), "B=");
    LoadOneLine(LoadLine(START, "B="), "A=");
    HashIgnoresOrder(["A="] + ["B="], ["B="] + ["A="]);
  }

  lemma LoadOneLine(st: Loading, line: string)
    requires !st.failed
    ensures LoadLines(st, [line]) == LoadLine(st, line)
  {
    assert [line][1..] == [];
  }

  // ----- which edits the hash sees -----

  lemma {:induction false} LineHashAppend(a: string, b: string)
    ensures LineHash(a + b) == LineHash(a) + LineHash(b)
    decreases |a|
  {
    if a == [] {
      assert a + b == b;
    } else {
      assert (a + b)[0] == a[0] && (a + b)[1..] == a[1..] + b;
      LineHashAppend(a[1..], b);
    }
  }

  lemma {:induction false} CStringAppend(a: string, b: string)
    requires '\0' !in a
    ensures CString(a + b) == a + CString(b)
    decreases |a|
  {
    if a == [] {
      assert a + b == b;
    } else {
      assert (a + b)[1..] == a[1..] + b;
      CStringAppend(a[1..], b);
    }
  }

  /** A line that is no comment counts its bytes; c is one of them. */
  lemma CountedByte(x: string, c: char, y: string)
    requires '\0' !in x + [c] && (x + [c])[0] != '#'
    ensures CountedHash(x + [c] + y) == LineHash(x) + c as int % 256 + LineHash(CString(y))
  {
    CStringAppend(x + [c], y);
    LineHashAppend(x + [c], CString(y));
    LineHashAppend(x, [c]);
    assert [c][1..] == [];
    assert (x + [c] + CString(y))[0] == (x + [c])[0];
  }

  /**
   * Two schemas that load and differ in one byte of a line that is no comment: their hashes differ by the difference of
   * the two bytes, so the edit of a single byte is always seen.
   */
  lemma SingleByteEdit(a: seq<string>, x: string, c: char, d: char, y: string, b: seq<string>)
    requires '\0' !in x + [c] && '\0' !in x + [d] && (x + [c])[0] != '#' && (x + [d])[0] != '#'
    requires !LoadLines(START, a + ([x + [c] + y] + b)).failed && !LoadLines(START, a + ([x + [d] + y] + b)).failed
    ensures var h, h' := LoadLines(START, a + ([x + [c] + y] + b)).hash, LoadLines(START, a + ([x + [d] + y] + b)).hash;
      && (h - h' - (c as int % 256 - d as int % 256)) % 0x1_0000_0000 == 0
      && (h == h' <==> c as int % 256 == d as int % 256)
  {
    EditedSum(a, x, c, y, b);
    EditedSum(a, x, d, y, b);
    HashDifference(a + ([x + [c] + y] + b), a + ([x + [d] + y] + b), c as int % 256 - d as int % 256);
  }

  lemma HashDifference(l: seq<string>, l': seq<string>, delta: int)
    requires !LoadLines(START, l).failed && !LoadLines(START, l').failed
    requires FileHash(l) - FileHash(l') == delta && -256 < delta < 256
    ensures (LoadLines(START, l).hash - LoadLines(START, l').hash - delta) % 0x1_0000_0000 == 0
    ensures LoadLines(START, l).hash == LoadLines(START, l').hash <==> delta == 0
  {
    HashIsSum(START, l);
    HashIsSum(START, l');
    WrapClose(FileHash(l), FileHash(l'), delta);
  }

  lemma EditedSum(a: seq<string>, x: string, c: char, y: string, b: seq<string>)
    requires '\0' !in x + [c] && (x + [c])[0] != '#'
    ensures FileHash(a + ([x + [c] + y] + b))
      == FileHash(a) + LineHash(x) + c as int % 256 + LineHash(CString(y)) + FileHash(b)
  {
    var line := x + [c] + y;
    FileHashAppend(a, [line] + b);
    assert ([line] + b)[1..] == b;
    CountedByte(x, c, y);
  }

  /** The hash of a schema of one empty definition is the code of its name plus that of the equals sign. */
  lemma OneLineHash(c: char)
    requires 'A' <= c <= 'Z'
    ensures LoadLines(START, [[c] + "="]).hash == c as int + 61
  {
    EmptyDefinition(START, c);
    LoadOneLine(START, [c] + "=");
    assert ([c] + "=")[1..] == "=" && "="[1..] == "";
  }

  /** A blank in front of a line changes nothing but the hash. */
  lemma LeadingBlanks(st: Loading, c: char, line: string)
    requires !st.failed && (c == ' ' || c == '\t') && line != [] && line[0] != '#' && '\0' !in line
    ensures LoadLine(st, [c] + line) == LoadLine(st, line).(hash := LoadLine(st, [c] + line).hash)
  {
    assert ([c] + line)[1..] == line;
    assert SkipSpaces([c] + line) == SkipSpaces(line);
    var h, h' := LoadLine(st, line).hash, LoadLine(st, [c] + line).hash;
    LineIsText(st, line, h);
    LineIsText(st, [c] + line, h');
    TextIgnoresHash(st, h, h', SkipSpaces(line));
  }

  lemma LineIsText(st: Loading, s: string, h: int32)
    requires !st.failed && s != [] && s[0] != '#' && '\0' !in s && h == LoadLine(st, s).hash
    ensures LoadLine(st, s) == LoadText(st.(hash := h), SkipSpaces(s))
  {
  }

  lemma TextIgnoresHash(st: Loading, h: int32, h': int32, text: string)
    requires !st.failed
    ensures LoadText(st.(hash := h'), text) == LoadText(st.(hash := h), text).(hash := h')
  {
  }

  lemma BlankCounts(h: int, n: int, c: int)
    ensures (Wrap32(h + (c + n)) - Wrap32(h + n) - c) % 0x1_0000_0000 == 0
  {
    WrapDifference(h + (c + n), h + n);
  }

  /** A line that loads: a comment, a blank line, or a name with an equals sign and a layout that parses. */
  ghost predicate Loads(line: string) {
    var text := Text(line);
    || !IsDefinition(line)
    || ('=' in text && ParseLayout(text[Scan(text, '=') + 1..]).Ok?)
  }

  /** A schema loads to its end if and only if each of its lines does. */
  lemma {:induction false} LoadsIff(st: Loading, lines: seq<string>)
    requires !st.failed
    ensures !LoadLines(st, lines).failed <==> forall k :: 0 <= k < |lines| ==> Loads(lines[k])
    decreases |lines|
  {
    if lines != [] {
      LineLoadsIff(st, lines[0]);
      assert lines == [lines[0]] + lines[1..];
      if Loads(lines[0]) {
        LoadsIff(LoadLine(st, lines[0]), lines[1..]);
      }
    }
  }

  lemma LineLoadsIff(st: Loading, line: string)
    requires !st.failed
    ensures !LoadLine(st, line).failed <==> Loads(line)
  {
    var text := Text(line);
    assert Scan(text, '=') < |text| ==> text[Scan(text, '=')] in text;
    if Scan(text, '=') == |text| {
      assert text[..|text|] == text;
    }
  }

  /** An empty line, or one of blanks and tabs, changes nothing but the hash. */
  lemma {:induction false} BlankLine(st: Loading, line: string)
    requires !st.failed && forall i :: 0 <= i < |line| ==> line[i] == ' ' || line[i] == '\t'
    ensures LoadLine(st, line) == st.(hash := LoadLine(st, line).hash)
  {
    AllBlank(line);
  }

  lemma {:induction false} AllBlank(line: string)
    requires forall i :: 0 <= i < |line| ==> line[i] == ' ' || line[i] == '\t'
    ensures SkipSpaces(line) == []
    decreases |line|
  {
    if line != [] {
      AllBlank(line[1..]);
    }
  }
}
