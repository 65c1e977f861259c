// The text form of a layout: the recursive parser, a printer, and exactly which layouts survive the round trip.
module SchemaParser {
  import opened Bytes
  import opened Util
  import opened Layouts

  datatype Parsed<+T> = Parsed(value: T, rest: string)

  /** Where a level of the layout ends: at the end of the line, or at the brace that closes an array. */
  predicate AtEnd(rest: string) {
    rest == [] || rest[0] == '}'
  }

  /**
   * parseMessageLayout: fields up to the end of the line or a closing brace. The brace is left in place, so the level
   * around an array ends together with the array.
   */
  function ParseLayout(s: string): (r: Result<Parsed<Layout>>)
    ensures r.Ok? ==> |r.value.rest| <= |s|
    decreases |s|, 2
  {
    if s == [] then Ok(Parsed([], [])) else ParseFields(s)
  }

  function ParseFields(s: string): (r: Result<Parsed<Layout>>)
    ensures r.Ok? ==> |r.value.rest| <= |s| && r.value.value != []
    decreases |s|, 1
  {
    var p :- ParseOne(s);
    Continue(p.value, p.rest)
  }

  /** A name up to the colon, then a type. */
  function ParseOne(s: string): (r: Result<Parsed<Field>>)
    ensures r.Ok? ==> |r.value.rest| < |s|
    decreases |s|, 0
  {
    var k := Scan(s, ':');
    if k == |s| then Err(SyntaxError) else ParseType(s[..k], s[k + 1..])
  }

  /** After a field: stop at the end or at a brace, or go on behind a comma. */
  function Continue(f: Field, rest: string): (r: Result<Parsed<Layout>>)
    ensures r.Ok? ==> |r.value.rest| <= |rest| && r.value.value != []
    decreases |rest|, 0
  {
    if AtEnd(rest) then Ok(Parsed([f], rest))
    else if rest[0] != ',' then Err(SyntaxError)
    else
      var others :- ParseFields(rest[1..]);
      Ok(Parsed([f] + others.value, others.rest))
  }

  function ParseType(name: string, t: string): (r: Result<Parsed<Field>>)
    ensures r.Ok? ==> |r.value.rest| <= |t|
    decreases |t|, 3
  {
    if t == [] then Ok(Parsed(UnsetField(name), []))
    else if t[0] == 'I' then Ok(Parsed(IntField(name), t[1..]))
    else if t[0] == 'S' then Ok(Parsed(StringField(name), t[1..]))
    else if t[0] == 'A' then
      if |t| < 2 || t[1] != '{' then Err(SyntaxError) else
      var inner :- ParseLayout(t[2..]);
      Ok(Parsed(ArrayField(name, inner.value), inner.rest))
    else Err(SyntaxError)
  }

  // ----- the parser as a loop over a position -----

  ghost function PrependFields(fields: Layout, r: Result<Parsed<Layout>>): Result<Parsed<Layout>> {
    match r
    case Ok(p) => Ok(Parsed(fields + p.value, p.rest))
    case Err(e) => Err(e)
  }

  method ParseMessageLayout(src: string, start: nat) returns (r: Result<Layout>, pos: nat)
    requires start <= |src|
    ensures start <= pos <= |src|
    ensures match ParseLayout(src[start..])
      case Ok(p) => r == Ok(p.value) && src[pos..] == p.rest
      case Err(e) => r == Err(e)
    decreases |src| - start, 1
  {
    pos := start;
    var children: Layout := [];
    if pos == |src| {
      return Ok(children), pos;
    }
    assert src[start..] != [];
    PrependNoFields(ParseFields(src[pos..]));
    while true
      invariant start <= pos <= |src|
      invariant ParseFields(src[start..]) == PrependFields(children, ParseFields(src[pos..]))
      decreases |src| - pos
    {
      ghost var rest := src[pos..];
      var info;
      info, pos := ParseFieldAt(src, pos);
      if info.Err? {
        return Err(info.error), pos;
      }
      assert ParseFields(rest) == Continue(info.value, src[pos..]);
      ContinueAt(children, info.value, src, pos);
      if pos == |src| || src[pos] == '}' {
        return Ok(children + [info.value]), pos;
      }
      if src[pos] != ',' {
        return Err(SyntaxError), pos;
      }
      children := children + [info.value];
      pos := pos + 1;
    }
  }

  method ParseFieldAt(src: string, start: nat) returns (r: Result<Field>, pos: nat)
    requires start <= |src|
    ensures start < pos <= |src| || r.Err?
    ensures start <= pos <= |src|
    ensures match ParseOne(src[start..])
      case Ok(p) => r == Ok(p.value) && src[pos..] == p.rest
      case Err(e) => r == Err(e)
    decreases |src| - start, 0
  {
    ghost var rest := src[start..];
    pos := FindColon(src, start);
    if pos == |src| {
      return Err(SyntaxError), pos;
    }
    var name := src[start..pos];
    assert rest[..Scan(rest, ':')] == name && rest[Scan(rest, ':') + 1..] == src[pos + 1..];
    r, pos := ParseTypeAt(src, pos + 1, name);
  }

  method FindColon(src: string, start: nat) returns (pos: nat)
    requires start <= |src|
    ensures start <= pos <= |src| && pos == start + Scan(src[start..], ':')
  {
    pos := start;
    while pos < |src| && src[pos] != ':'
      invariant start <= pos <= |src|
      invariant Scan(src[start..], ':') == pos - start + Scan(src[pos..], ':')
    {
      assert src[pos..][1..] == src[pos + 1..];
      pos := pos + 1;
    }
  }

  /** The switch on the type letter. */
  method ParseTypeAt(src: string, start: nat, name: string) returns (r: Result<Field>, pos: nat)
    requires start <= |src|
    ensures start <= pos <= |src|
    ensures match ParseType(name, src[start..])
      case Ok(p) => r == Ok(p.value) && src[pos..] == p.rest
      case Err(e) => r == Err(e)
    decreases |src| - start, 2
  {
    pos := start;
    if pos == |src| {
      r := Ok(UnsetField(name));
    } else if src[pos] == 'I' {
      pos := pos + 1;
      r := Ok(IntField(name));
    } else if src[pos] == 'S' {
      pos := pos + 1;
      r := Ok(StringField(name));
    } else if src[pos] == 'A' {
      pos := pos + 1;
      if pos == |src| || src[pos] != '{' {
        return Err(SyntaxError), pos;
      }
      pos := pos + 1;
      assert src[start..][2..] == src[pos..];
      var inner;
      inner, pos := ParseMessageLayout(src, pos);
      if inner.Err? {
        return Err(inner.error), pos;
      }
      r := Ok(ArrayField(name, inner.value));
    } else {
      r := Err(SyntaxError);
    }
  }

  /** The three ways to go on after a field, seen from the fields collected so far. */
  lemma ContinueAt(children: Layout, f: Field, src: string, pos: nat)
    requires pos <= |src|
    ensures var r := PrependFields(children, Continue(f, src[pos..]));
      if pos == |src| || src[pos] == '}' then r == Ok(Parsed(children + [f], src[pos..]))
      else if src[pos] != ',' then r == Err(SyntaxError)
      else r == PrependFields(children + [f], ParseFields(src[pos + 1..]))
  {
    if pos < |src| && src[pos] == ',' {
      assert src[pos..][1..] == src[pos + 1..];
      ContinueBehindComma(f, src[pos..]);
      PrependFieldsStep(children, f, ParseFields(src[pos + 1..]));
    }
  }

  lemma PrependNoFields(r: Result<Parsed<Layout>>)
    ensures PrependFields([], r) == r
  {
    if r.Ok? {
      assert [] + r.value.value == r.value.value;
    }
  }

  lemma PrependFieldsStep(fields: Layout, f: Field, r: Result<Parsed<Layout>>)
    ensures PrependFields(fields, PrependFields([f], r)) == PrependFields(fields + [f], r)
  {
    if r.Ok? {
      assert fields + ([f] + r.value.value) == fields + [f] + r.value.value;
    }
  }

  // ----- printing -----

  /** The schema text of a layout: name:I, name:S or name:A{...}, separated by commas. */
  function PrintLayout(fields: Layout): string
    decreases fields, 1
  {
    if fields == [] then ""
    else if |fields| == 1 then PrintField(fields[0])
    else PrintField(fields[0]) + "," + PrintLayout(fields[1..])
  }

  function PrintField(f: Field): string
    decreases f, 2
  {
    f.name + ":" + PrintType(f)
  }

  function PrintType(f: Field): string
    decreases f, 1
  {
    match f
    case IntField(_) => "I"
    case StringField(_) => "S"
    case ArrayField(_, fields) => "A{" + (PrintLayout(fields) + "}")
    case UnsetField(_) => ""
  }

  /** Layouts that have a text form: every field has a type, and no name contains the separator or a NUL. */
  ghost predicate Printable(fields: Layout)
    decreases fields
  {
    forall f :: f in fields ==> !f.UnsetField? && CleanName(f.name) && (f.ArrayField? ==> Printable(f.fields))
  }

  predicate CleanName(name: string) {
    ':' !in name && '\0' !in name
  }

  ghost predicate NonEmptyArrays(fields: Layout)
    decreases fields
  {
    forall f :: f in fields && f.ArrayField? ==> f.fields != [] && NonEmptyArrays(f.fields)
  }

  /** The layout with everything after the first array dropped, at each level. */
  function Truncate(fields: Layout): (t: Layout)
    ensures fields != [] ==> t != []
    decreases fields
  {
    if fields == [] then []
    else if fields[0].ArrayField? then [ArrayField(fields[0].name, Truncate(fields[0].fields))]
    else [fields[0]] + Truncate(fields[1..])
  }

  /** At every level an array may only be the last field. */
  ghost predicate ArraysLast(fields: Layout)
    decreases fields
  {
    forall i :: 0 <= i < |fields| && fields[i].ArrayField? ==> i == |fields| - 1 && ArraysLast(fields[i].fields)
  }

  /** What follows the first field of a printed layout. */
  function After(fields: Layout, tail: string): string
    requires fields != []
  {
    if |fields| == 1 then tail else "," + (PrintLayout(fields[1..]) + tail)
  }

  lemma Assoc(a: string, b: string, c: string)
    ensures a + b + c == a + (b + c)
  {
  }

  lemma PrintSplit(fields: Layout, tail: string)
    requires fields != []
    ensures PrintLayout(fields) + tail == PrintField(fields[0]) + After(fields, tail)
  {
  }

  lemma ParseOnePrinted(f: Field, more: string)
    requires ':' !in f.name
    ensures ParseOne(PrintField(f) + more) == ParseType(f.name, PrintType(f) + more)
  {
    Assoc(f.name + ":", PrintType(f), more);
    ScanSplit(f.name, PrintType(f) + more);
  }

  lemma ParsePlain(f: Field, more: string)
    requires (f.IntField? || f.StringField?) && ':' !in f.name
    ensures ParseFields(PrintField(f) + more) == Continue(f, more)
  {
    ParseOnePrinted(f, more);
    assert (PrintType(f) + more)[1..] == more;
  }

  lemma ParseArray(f: Field, more: string)
    requires f.ArrayField? && ':' !in f.name
    ensures ParseFields(PrintField(f) + more) ==
      match ParseFields(PrintLayout(f.fields) + ("}" + more))
      case Ok(p) => Continue(ArrayField(f.name, p.value), p.rest)
      case Err(e) => Err(e)
  {
    ParseOnePrinted(f, more);
    var inner := PrintLayout(f.fields) + ("}" + more);
    var t := PrintType(f) + more;
    Assoc("A{", PrintLayout(f.fields) + "}", more);
    Assoc(PrintLayout(f.fields), "}", more);
    assert t == "A{" + inner;
    assert t[2..] == inner && inner != [];
    assert ParseType(f.name, t) ==
      match ParseFields(inner)
      case Ok(p) => Ok(Parsed(ArrayField(f.name, p.value), p.rest))
      case Err(e) => Err(e);
  }

  lemma ContinueBehindComma(f: Field, rest: string)
    requires rest != [] && rest[0] == ','
    ensures Continue(f, rest) == PrependFields([f], ParseFields(rest[1..]))
  {
  }

  /** Parsing a printed layout gives the truncated layout, and stops at a brace or at the end. */
  lemma {:induction false} ParsePrint(fields: Layout, tail: string)
    requires fields != [] && Printable(fields) && NonEmptyArrays(fields) && AtEnd(tail)
    ensures ParseFields(PrintLayout(fields) + tail).Ok?
    ensures var p := ParseFields(PrintLayout(fields) + tail).value;
      p.value == Truncate(fields) && AtEnd(p.rest)
    decreases fields
  {
    var f, more := fields[0], After(fields, tail);
    PrintSplit(fields, tail);
    if f.ArrayField? {
      ParsePrint(f.fields, "}" + more);
      ParseArray(f, more);
    } else {
      ParsePlain(f, more);
      if |fields| > 1 {
        ParsePrint(fields[1..], tail);
        assert more[1..] == PrintLayout(fields[1..]) + tail;
        ContinueBehindComma(f, more);
      } else {
        assert Truncate(fields) == [f] + [];
      }
    }
  }

  lemma ScanSplit(name: string, t: string)
    requires ':' !in name
    ensures var s := name + ":" + t;
      Scan(s, ':') == |name| && s[..|name|] == name && s[|name| + 1..] == t
  {
    ScanFinds(name, ':', t);
    assert name + ":" + t == name + [':'] + t;
  }

  lemma PrintNonEmpty(fields: Layout)
    requires fields != []
    ensures PrintLayout(fields) != []
  {
  }

  lemma {:induction false} TruncateIff(fields: Layout)
    ensures Truncate(fields) == fields <==> ArraysLast(fields)
    decreases fields
  {
    if fields != [] {
      var f, others := fields[0], fields[1..];
      assert fields == [f] + others;
      if f.ArrayField? {
        TruncateIff(f.fields);
        if |fields| == 1 {
          assert fields == [f];
        } else {
          assert !ArraysLast(fields);
        }
      } else {
        TruncateIff(others);
        if ArraysLast(others) {
          forall i | 0 <= i < |fields| && fields[i].ArrayField?
            ensures i == |fields| - 1 && ArraysLast(fields[i].fields)
          {
            assert others[i - 1] == fields[i];
          }
        } else {
          var i :| 0 <= i < |others| && others[i].ArrayField? && !(i == |others| - 1 && ArraysLast(others[i].fields));
          assert fields[i + 1] == others[i];
        }
      }
    }
  }

  /** A printed layout that parses back to itself has its arrays last and none of them empty. */
  lemma {:induction false} ExactParse(fields: Layout, tail: string)
    requires fields != [] && Printable(fields)
    requires ParseFields(PrintLayout(fields) + tail).Ok? && ParseFields(PrintLayout(fields) + tail).value.value == fields
    ensures NonEmptyArrays(fields) && ArraysLast(fields)
    decreases fields
  {
    var f, more := fields[0], After(fields, tail);
    PrintSplit(fields, tail);
    if f.ArrayField? {
      ParseArray(f, more);
      assert ParseFields(PrintLayout(f.fields) + ("}" + more)).value.value == f.fields;
      ExactParse(f.fields, "}" + more);
      ParsePrint(f.fields, "}" + more);
      assert fields == [f];
    } else {
      ParsePlain(f, more);
      if |fields| > 1 {
        var others := fields[1..];
        assert more[1..] == PrintLayout(others) + tail;
        ContinueBehindComma(f, more);
        var r := ParseFields(PrintLayout(others) + tail).value.value;
        assert r == ([f] + r)[1..] == others;
        ExactParse(others, tail);
        ArraysLastCons(f, others);
      } else {
        assert fields == [f];
      }
    }
  }

  lemma ArraysLastCons(f: Field, others: Layout)
    requires !f.ArrayField? && NonEmptyArrays(others) && ArraysLast(others)
    ensures NonEmptyArrays([f] + others) && ArraysLast([f] + others)
  {
  }

  // ----- what the parser returns -----

  ghost predicate CleanNames(fields: Layout)
    decreases fields
  {
    forall f :: f in fields ==> CleanName(f.name) && (f.ArrayField? ==> CleanNames(f.fields))
  }

  /** The names of a parsed line hold neither the separator nor a NUL. */
  lemma {:induction false} FieldsClean(s: string)
    requires '\0' !in s && ParseFields(s).Ok?
    ensures CleanNames(ParseFields(s).value.value) && '\0' !in ParseFields(s).value.rest
    decreases |s|, 1
  {
    FieldClean(s);
    var p := ParseOne(s).value;
    if !AtEnd(p.rest) {
      FieldsClean(p.rest[1..]);
    }
  }

  lemma {:induction false} FieldClean(s: string)
    requires '\0' !in s && ParseOne(s).Ok?
    ensures CleanNames([ParseOne(s).value.value]) && '\0' !in ParseOne(s).value.rest
    decreases |s|, 0
  {
    var k := Scan(s, ':');
    TypeClean(s[..k], s[k + 1..]);
  }

  lemma {:induction false} TypeClean(name: string, t: string)
    requires CleanName(name) && '\0' !in t && ParseType(name, t).Ok?
    ensures CleanNames([ParseType(name, t).value.value]) && '\0' !in ParseType(name, t).value.rest
    decreases |t|, 3
  {
    if t != [] && t[0] == 'A' {
      var inner := ParseLayout(t[2..]).value;
      if t[2..] != [] {
        FieldsClean(t[2..]);
      }
      assert ParseType(name, t).value == Parsed(ArrayField(name, inner.value), inner.rest);
    }
  }

  lemma {:induction false} TypedAndClean(fields: Layout)
    ensures Printable(fields) <==> Typed(fields) && CleanNames(fields)
    decreases fields
  {
    forall f | f in fields && f.ArrayField?
      ensures Printable(f.fields) <==> Typed(f.fields) && CleanNames(f.fields)
    {
      TypedAndClean(f.fields);
    }
  }

  lemma {:induction false} PrintHasNoNul(fields: Layout)
    requires Printable(fields)
    ensures '\0' !in PrintLayout(fields)
    decreases fields
  {
    if fields != [] {
      if fields[0].ArrayField? {
        PrintHasNoNul(fields[0].fields);
      }
      assert '\0' !in PrintField(fields[0]);
      PrintHasNoNul(fields[1..]);
    }
  }

  /** The text is read back as the layout. */
  ghost predicate ReadsBack(text: string, fields: Layout) {
    ParseLayout(CString(text)).Ok? && ParseLayout(CString(text)).value.value == fields
  }

  /**
   * A layout survives printing and parsing if and only if, at every level, no name holds a colon or a NUL and arrays
   * come last and are not empty.
   */
  lemma SchemaRoundTripIff(fields: Layout)
    requires Typed(fields)
    ensures ReadsBack(PrintLayout(fields), fields) <==> Printable(fields) && NonEmptyArrays(fields) && ArraysLast(fields)
  {
    TypedAndClean(fields);
    var text := PrintLayout(fields);
    if ReadsBack(text, fields) && fields != [] {
      FieldsClean(CString(text));
    }
    if Printable(fields) && fields != [] {
      PrintHasNoNul(fields);
      PrintNonEmpty(fields);
      assert text + "" == text;
      if NonEmptyArrays(fields) && ArraysLast(fields) {
        ParsePrint(fields, "");
        TruncateIff(fields);
      } else if ReadsBack(text, fields) {
        ExactParse(fields, "");
      }
    }
  }

  /** Every printable layout without empty arrays comes back truncated. */
  lemma SchemaRoundTrip(fields: Layout)
    requires Printable(fields) && NonEmptyArrays(fields)
    ensures ReadsBack(PrintLayout(fields), Truncate(fields))
  {
    PrintHasNoNul(fields);
    if fields != [] {
      PrintNonEmpty(fields);
      assert PrintLayout(fields) + "" == PrintLayout(fields);
      ParsePrint(fields, "");
    }
  }

  /** A schema line written out: names and types, separated by commas, an array with its fields in braces. */
  lemma SchemaExample(fields: Layout)
    requires fields == [StringField("n"), IntField("i"), ArrayField("a", [IntField("x")])]
    ensures PrintLayout(fields) == "n:S,i:I,a:A{x:I}"
  {
    var tail := fields[1..];
    var last, inner := tail[1..], fields[2].fields;
    assert last == [fields[2]] && PrintLayout(inner) == "x:I";
    assert PrintLayout(last) == "a:A{x:I}";
    assert PrintLayout(tail) == "i:I,a:A{x:I}";
  }

  /** A line that ends behind a colon leaves its last field without a type. */
  lemma UnsetExample(name: string)
    requires CleanName(name)
    ensures ParseLayout(name + ":") == Ok(Parsed([UnsetField(name)], ""))
  {
    var s := name + ":" + "";
    ScanSplit(name, "");
    assert s == name + ":";
    assert ParseOne(s) == ParseType(name, s[|name| + 1..]);
    assert ParseOne(s) == Ok(Parsed(UnsetField(name), []));
    assert ParseFields(s) == Continue(UnsetField(name), []);
  }

  // ----- exactly what the parser accepts -----

  /** The text of a layout up to where the parser stops, which is before the braces that close its last arrays. */
  function OpenText(fields: Layout): string
    decreases fields, 1
  {
    if fields == [] then ""
    else if |fields| == 1 then OpenField(fields[0])
    else OpenField(fields[0]) + ("," + OpenText(fields[1..]))
  }

  function OpenField(f: Field): string
    decreases f, 2
  {
    f.name + ":" + OpenType(f)
  }

  function OpenType(f: Field): string
    decreases f, 1
  {
    match f
    case IntField(_) => "I"
    case StringField(_) => "S"
    case ArrayField(_, fields) => "A{" + OpenText(fields)
    case UnsetField(_) => ""
  }

  /**
   * The layouts the parser can return with this rest: names without a colon; an array, or a field without a type, only at
   * the end; behind a number or string the end or a brace; behind a missing type or an opening brace only the end.
   */
  ghost predicate Accepted(fields: Layout, rest: string)
    decreases fields
  {
    && fields != [] && ':' !in fields[0].name
    && if |fields| > 1 then (fields[0].IntField? || fields[0].StringField?) && Accepted(fields[1..], rest)
       else AcceptedLast(fields[0], rest)
  }

  ghost predicate AcceptedLast(f: Field, rest: string)
    decreases f
  {
    match f
    case ArrayField(_, fields) => if fields == [] then rest == [] else Accepted(fields, rest)
    case UnsetField(_) => rest == []
    case _ => AtEnd(rest)
  }

  lemma {:induction false} AcceptedAtEnd(fields: Layout, rest: string)
    requires Accepted(fields, rest)
    ensures AtEnd(rest)
    decreases fields
  {
    if |fields| > 1 {
      AcceptedAtEnd(fields[1..], rest);
    } else if fields[0].ArrayField? && fields[0].fields != [] {
      AcceptedAtEnd(fields[0].fields, rest);
    }
  }

  /** What is accepted is the text of the layout and the rest. */
  lemma {:induction false} AcceptedText(s: string)
    requires ParseFields(s).Ok?
    ensures var Parsed(fields, rest) := ParseFields(s).value;
      Accepted(fields, rest) && s == OpenText(fields) + rest
    decreases |s|, 2
  {
    FieldText(s);
    var p := ParseOne(s).value;
    if AtEnd(p.rest) {
      assert ParseFields(s) == Ok(Parsed([p.value], p.rest));
      assert [p.value][0] == p.value;
    } else {
      AcceptedText(p.rest[1..]);
      var others := ParseFields(p.rest[1..]).value;
      var fields := [p.value] + others.value;
      assert ParseFields(s) == Ok(Parsed(fields, others.rest));
      assert fields[1..] == others.value && p.rest == "," + p.rest[1..];
      JoinText(s, p.value, others.value, others.rest);
    }
  }

  lemma JoinText(s: string, f: Field, others: Layout, rest: string)
    requires others != [] && s == OpenField(f) + ("," + (OpenText(others) + rest))
    ensures s == OpenText([f] + others) + rest
  {
    assert ([f] + others)[1..] == others;
    assert OpenText([f] + others) == OpenField(f) + ("," + OpenText(others));
  }

  /** One field: its text, and what may follow. */
  lemma {:induction false} FieldText(s: string)
    requires ParseOne(s).Ok?
    ensures var Parsed(f, rest) := ParseOne(s).value;
      && ':' !in f.name && s == OpenField(f) + rest
      && (f.IntField? || f.StringField? || AcceptedLast(f, rest))
      && (f.ArrayField? || f.UnsetField? ==> AtEnd(rest))
    decreases |s|, 1
  {
    var k := Scan(s, ':');
    TypeText(s[..k], s[k + 1..]);
    assert s == s[..k] + ":" + s[k + 1..];
    var Parsed(f, rest) := ParseOne(s).value;
    Assoc(f.name + ":", OpenType(f), rest);
  }

  lemma {:induction false} TypeText(name: string, t: string)
    requires ParseType(name, t).Ok?
    ensures var Parsed(f, rest) := ParseType(name, t).value;
      && f.name == name && t == OpenType(f) + rest
      && (f.IntField? || f.StringField? || AcceptedLast(f, rest))
      && (f.ArrayField? || f.UnsetField? ==> AtEnd(rest))
    decreases |t|, 3
  {
    if t != [] && t[0] == 'A' {
      var u := t[2..];
      var inner := ParseLayout(u).value;
      assert ParseType(name, t).value == Parsed(ArrayField(name, inner.value), inner.rest);
      assert t == "A{" + u;
      if u != [] {
        AcceptedText(u);
        AcceptedAtEnd(inner.value, inner.rest);
        Assoc("A{", OpenText(inner.value), inner.rest);
      }
    } else if t != [] {
      assert t == [t[0]] + t[1..];
    }
  }

  /** The text of a layout that can be accepted is accepted. */
  lemma {:induction false} TextAccepted(fields: Layout, rest: string)
    requires Accepted(fields, rest)
    ensures ParseFields(OpenText(fields) + rest) == Ok(Parsed(fields, rest))
    decreases fields, 1
  {
    var f := fields[0];
    if |fields| > 1 {
      TextAccepted(fields[1..], rest);
      assert fields == [f] + fields[1..];
      TextCons(f, fields[1..], rest);
    } else {
      assert fields == [f];
      AcceptedAtEnd(fields, rest);
      OpenFieldParses(f, rest);
      LastParses(f, rest);
    }
  }

  lemma TextCons(f: Field, others: Layout, rest: string)
    requires (f.IntField? || f.StringField?) && ':' !in f.name && others != []
    requires ParseFields(OpenText(others) + rest) == Ok(Parsed(others, rest))
    ensures ParseFields(OpenText([f] + others) + rest) == Ok(Parsed([f] + others, rest))
  {
    var more := "," + (OpenText(others) + rest);
    JoinText(OpenField(f) + more, f, others, rest);
    OpenFieldParses(f, more);
    assert (OpenType(f) + more)[1..] == more;
    assert more[1..] == OpenText(others) + rest;
    ContinueBehindComma(f, more);
  }

  lemma OpenFieldParses(f: Field, more: string)
    requires ':' !in f.name
    ensures ParseOne(OpenField(f) + more) == ParseType(f.name, OpenType(f) + more)
  {
    Assoc(f.name + ":", OpenType(f), more);
    ScanSplit(f.name, OpenType(f) + more);
  }

  lemma {:induction false} LastParses(f: Field, rest: string)
    requires AcceptedLast(f, rest)
    ensures ParseType(f.name, OpenType(f) + rest) == Ok(Parsed(f, rest))
    decreases f, 0
  {
    var t := OpenType(f) + rest;
    match f
    case ArrayField(name, fields) =>
      var u := OpenText(fields) + rest;
      Assoc("A{", OpenText(fields), rest);
      assert t == "A{" + u && t[2..] == u;
      if fields != [] {
        TextAccepted(fields, rest);
        assert u != [];
      }
    case UnsetField(_) =>
      assert t == [];
    case _ =>
      assert t[1..] == rest;
  }

  /**
   * The parser accepts exactly these texts: it returns the fields and leaves rest if and only if they can be accepted and
   * the text is theirs, followed by rest.
   */
  lemma ParseIff(s: string, fields: Layout, rest: string)
    ensures ParseFields(s) == Ok(Parsed(fields, rest)) <==> Accepted(fields, rest) && s == OpenText(fields) + rest
  {
    if ParseFields(s).Ok? {
      AcceptedText(s);
    }
    if Accepted(fields, rest) {
      TextAccepted(fields, rest);
    }
  }
}
