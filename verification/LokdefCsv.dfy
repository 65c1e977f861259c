// The locomotive list: one comma-separated line per loco.
module LokdefCsv {
  import opened Bytes
  import opened Util
  import LocoTable

  const F_DEFAULT := 0
  const F_DEC14 := 1
  const F_DEC28 := 2

  /** A function with its name and whether it is on at start. */
  datatype Func = Func(name: string, on: bool)

  /** A loco as the file defines it. funcs[0] is the headlight. */
  datatype Def = Def(addr: int32, flags: nat, name: string, img: string, funcs: seq<Func>)

  const HEADLIGHT := Func("lHeadlight", true)

  // ----- scanning -----

  predicate IsSep(c: char) {
    c == ',' || c == '\r' || c == '\n'
  }

  predicate IsBlank(c: char) {
    c == ' ' || c == '\t'
  }

  predicate IsDigit(c: char) {
    '0' <= c <= '9'
  }

  /** The number of characters before the first separator. */
  function FieldLen(s: string): (k: nat)
    ensures k <= |s|
    ensures k < |s| ==> IsSep(s[k])
    ensures forall i :: 0 <= i < k ==> !IsSep(s[i])
  {
    if s == [] || IsSep(s[0]) then 0 else 1 + FieldLen(s[1..])
  }

  function Field(s: string): string {
    s[..FieldLen(s)]
  }

  function SkipBlanks(s: string): (t: string)
    ensures |t| <= |s| && forall c :: c in t ==> c in s
    ensures t != [] ==> !IsBlank(t[0])
  {
    if s != [] && IsBlank(s[0]) then SkipBlanks(s[1..]) else s
  }

  /** getnext: behind the next separator and the blanks after it; fails if there is no separator. */
  function GetNext(s: string): (r: Result<string>)
    ensures r.Ok? ==> |r.value| < |s|
  {
    var k := FieldLen(s);
    if k == |s| then Err(SyntaxError) else Ok(SkipBlanks(s[k + 1..]))
  }

  /** getnext on a position in the line. */
  method MoveNext(line: string, start: nat) returns (ok: bool, pos: nat, end: nat)
    requires start <= |line|
    ensures ok <==> GetNext(line[start..]).Ok?
    ensures ok ==> start < pos <= end <= |line|
    ensures ok ==> line[pos..] == GetNext(line[start..]).value && line[pos..end] == Field(line[pos..])
  {
    pos := FindSep(line, start);
    if pos == |line| {
      return false, pos, 0;
    }
    DropTwice(line, start, pos - start + 1);
    pos := PassBlanks(line, pos + 1);
    end := FindSep(line, pos);
    TakeAfterDrop(line, pos, end);
    ok := true;
  }

  lemma DropTwice(s: string, i: nat, k: nat)
    requires i + k <= |s|
    ensures s[i..][k..] == s[i + k..]
  {
  }

  lemma TakeAfterDrop(s: string, i: nat, j: nat)
    requires i <= j <= |s|
    ensures s[i..][..j - i] == s[i..j]
  {
  }

  method FindSep(line: string, start: nat) returns (pos: nat)
    requires start <= |line|
    ensures start <= pos <= |line| && pos == start + FieldLen(line[start..])
  {
    pos := start;
    while pos < |line| && !IsSep(line[pos])
      invariant start <= pos <= |line|
      invariant FieldLen(line[start..]) == pos - start + FieldLen(line[pos..])
    {
      assert line[pos..][1..] == line[pos + 1..];
      pos := pos + 1;
    }
  }

  method PassBlanks(line: string, start: nat) returns (pos: nat)
    requires start <= |line|
    ensures start <= pos <= |line| && line[pos..] == SkipBlanks(line[start..])
  {
    pos := start;
    while pos < |line| && IsBlank(line[pos])
      invariant start <= pos <= |line|
      invariant SkipBlanks(line[start..]) == SkipBlanks(line[pos..])
    {
      assert line[pos..][1..] == line[pos + 1..];
      pos := pos + 1;
    }
  }

  /** A number out of the range of an int is cut to its low 32 bits; C leaves its value open. */
  function Atoi(s: string): int32 {
    Wrap32(Number(s))
  }

  /** Decimal digits with an optional sign, after white space; anything else ends the number. */
  function Number(s: string): int
    decreases |s|
  {
    if s == [] then 0
    else if IsSpace(s[0]) then Number(s[1..])
    else if s[0] == '-' then -Digits(s[1..], 0)
    else if s[0] == '+' then Digits(s[1..], 0)
    else Digits(s, 0)
  }

  function Digits(s: string, acc: int): int
    decreases |s|
  {
    if s == [] || !IsDigit(s[0]) then acc else Digits(s[1..], 10 * acc + (s[0] as int - '0' as int))
  }

  function DecoderType(s: string): nat {
    if "F_DEC14" <= s then F_DEC14 else if "F_DEC28" <= s then F_DEC28 else F_DEFAULT
  }

  /** The string without white space at its end. */
  function TrimRight(s: string): string {
    if s != [] && IsSpace(s[|s| - 1]) then TrimRight(s[..|s| - 1]) else s
  }

  function Take(s: string, n: nat): string {
    if |s| <= n then s else s[..n]
  }

  predicate Contains(s: string, p: string) {
    p <= s || (s != [] && Contains(s[1..], p))
  }

  // ----- one line -----

  /** A function field: "=1" anywhere in it switches the function on and takes two characters off the name. */
  function ParseFunc(field: string): Func {
    if Contains(field, "=1") && |field| >= 2 then Func(Take(field[..|field| - 2], 32), true) else Func(Take(field, 32), false)
  }

  /** n function fields behind position s, and the rest of the line from the last field on. */
  function ParseFuncs(s: string, n: nat): (r: Result<(seq<Func>, string)>)
    decreases n
  {
    if n == 0 then Ok(([], s)) else
    var t :- GetNext(s);
    var others :- ParseFuncs(t, n - 1);
    Ok(([ParseFunc(Field(t))] + others.0, others.1))
  }

  function ParseLine(line: string): (r: Result<seq<Def>>) {
    ParseText(CString(line))
  }

  /** A line that is a comment or has no separator defines nothing. */
  function ParseText(line: string): (r: Result<seq<Def>>) {
    if line != [] && line[0] == '#' then Ok([])
    else if GetNext(line).Err? then Ok([])
    else
      var p1 := GetNext(line).value;
      var p2 :- GetNext(p1);
      var p3 :- GetNext(p2);
      var p4 :- GetNext(p3);
      Finish(Atoi(line), DecoderType(p1), Field(p2), Field(p3), p4)
  }

  /** The function count and the functions, behind the fields already read. */
  function Finish(addr: int32, flags: nat, name: string, img: string, s: string): (r: Result<seq<Def>>) {
    var nFunc := Atoi(s) + 1;
    if nFunc > LocoTable.MAX_NFUNC then Err(InvalidSize) else
    var fs :- ParseFuncs(s, if nFunc < 1 then 0 else nFunc - 1);
    if FieldLen(fs.1) < |fs.1| then Err(SyntaxError) else
    Ok([Def(addr, flags, TrimRight(Take(name, 19)), TrimRight(Take(img, 31)),
            if nFunc < 1 then [] else [HEADLIGHT] + fs.0)])
  }

  /** The loop over the function names of a line. */
  method ReadFuncs(line: string, start: nat, n: nat) returns (r: Result<seq<Func>>, pos: nat)
    requires start <= |line|
    ensures pos <= |line|
    ensures match ParseFuncs(line[start..], n)
      case Ok(fs) => r == Ok(fs.0) && line[pos..] == fs.1
      case Err(e) => r == Err(e)
  {
    pos := start;
    var fs: seq<Func> := [];
    PrependNone(ParseFuncs(line[start..], n));
    for i := 0 to n
      invariant pos <= |line|
      invariant ParseFuncs(line[start..], n) == Prepend(fs, ParseFuncs(line[pos..], n - i))
    {
      var ok, p, end := MoveNext(line, pos);
      if !ok {
        return Err(SyntaxError), pos;
      }
      var f := ParseFunc(line[p..end]);
      PrependStep(fs, f, ParseFuncs(line[p..], n - i - 1));
      fs := fs + [f];
      pos := p;
    }
    assert fs + [] == fs;
    r := Ok(fs);
  }

  /** One round of the loop over the lines. */
  method ReadLine(buffer: string) returns (r: Result<seq<Def>>)
    ensures r == ParseLine(buffer)
  {
    var line := CString(buffer);
    if line != [] && line[0] == '#' {
      return Ok([]);
    }
    assert line[0..] == line;
    var ok, pos, end := MoveNext(line, 0);
    if !ok {
      return Ok([]);
    }
    var flags := DecoderType(line[pos..]);
    ok, pos, end := MoveNext(line, pos);
    if !ok {
      return Err(SyntaxError);
    }
    var name := line[pos..end];
    ok, pos, end := MoveNext(line, pos);
    if !ok {
      return Err(SyntaxError);
    }
    var img := line[pos..end];
    ok, pos, end := MoveNext(line, pos);
    if !ok {
      return Err(SyntaxError);
    }
    r := ReadFunctions(Atoi(line), flags, name, img, line, pos);
  }

  method ReadFunctions(addr: int32, flags: nat, name: string, img: string, line: string, start: nat) returns (r: Result<seq<Def>>)
    requires start <= |line|
    ensures r == Finish(addr, flags, name, img, line[start..])
  {
    var nFunc := Atoi(line[start..]) + 1;
    if nFunc > LocoTable.MAX_NFUNC {
      return Err(InvalidSize);
    }
    var fs, pos := ReadFuncs(line, start, if nFunc < 1 then 0 else nFunc - 1);
    if fs.Err? {
      return Err(fs.error);
    }
    if FieldLen(line[pos..]) < |line| - pos {
      return Err(SyntaxError);
    }
    var funcs := if nFunc < 1 then [] else [HEADLIGHT] + fs.value;
    r := Ok([Def(addr, flags, TrimRight(Take(name, 19)), TrimRight(Take(img, 31)), funcs)]);
  }

  /** readLokdef: the growing table. */
  method ReadLokdef(lines: seq<string>) returns (r: Result<seq<Def>>)
    ensures r == ParseFile(lines)
  {
    var table: seq<Def> := [];
    assert lines[0..] == lines;
    PrependDefs([], ParseFile(lines));
    for i := 0 to |lines|
      invariant ParseFile(lines) == AllDefs(table, ParseFile(lines[i..]))
    {
      assert lines[i..][0] == lines[i] && lines[i..][1..] == lines[i + 1..];
      var d := ReadLine(lines[i]);
      if d.Err? {
        return Err(d.error);
      }
      DefsStep(table, d.value, ParseFile(lines[i + 1..]));
      table := table + d.value;
    }
    assert table + [] == table;
    r := Ok(table);
  }

  ghost function AllDefs(ds: seq<Def>, r: Result<seq<Def>>): Result<seq<Def>> {
    match r
    case Ok(others) => Ok(ds + others)
    case Err(e) => Err(e)
  }

  lemma PrependDefs(ds: seq<Def>, r: Result<seq<Def>>)
    ensures ds == [] ==> AllDefs(ds, r) == r
  {
    if ds == [] && r.Ok? {
      assert [] + r.value == r.value;
    }
  }

  lemma DefsStep(ds: seq<Def>, es: seq<Def>, r: Result<seq<Def>>)
    ensures AllDefs(ds, AllDefs(es, r)) == AllDefs(ds + es, r)
  {
    if r.Ok? {
      assert ds + (es + r.value) == ds + es + r.value;
    }
  }

  ghost function Prepend(fs: seq<Func>, r: Result<(seq<Func>, string)>): Result<(seq<Func>, string)> {
    match r
    case Ok(p) => Ok((fs + p.0, p.1))
    case Err(e) => Err(e)
  }

  lemma PrependNone(r: Result<(seq<Func>, string)>)
    ensures Prepend([], r) == r
  {
    if r.Ok? {
      assert [] + r.value.0 == r.value.0;
    }
  }

  lemma PrependStep(fs: seq<Func>, f: Func, r: Result<(seq<Func>, string)>)
    ensures Prepend(fs, Prepend([f], r)) == Prepend(fs + [f], r)
  {
    if r.Ok? {
      assert fs + ([f] + r.value.0) == fs + [f] + r.value.0;
    }
  }

  /** The whole file: the definitions in order, up to the first line that throws. */
  function ParseFile(lines: seq<string>): (r: Result<seq<Def>>)
    decreases |lines|
  {
    if lines == [] then Ok([]) else
    var first :- ParseLine(lines[0]);
    var others :- ParseFile(lines[1..]);
    Ok(first + others)
  }

  // ----- printing -----

  function NumText(n: nat): (s: string)
    ensures s != []
    ensures forall i :: 0 <= i < |s| ==> IsDigit(s[i])
  {
    var c := ('0' as int + n % 10) as char;
    if n < 10 then [c] else NumText(n / 10) + [c]
  }

  function FlagText(flags: nat): string {
    if flags == F_DEC14 then "F_DEC14" else if flags == F_DEC28 then "F_DEC28" else "F_DEFAULT"
  }

  function FuncText(f: Func): string {
    f.name + (if f.on then "=1" else "")
  }

  /** The functions of a line, each behind a comma, and what ends the line. */
  function FuncsText(fs: seq<Func>, end: string): string {
    if fs == [] then end else "," + (FuncText(fs[0]) + FuncsText(fs[1..], end))
  }

  // A line, from its end: the functions, the image, the name, the decoder type, the address.

  function CountTail(d: Def, end: string): string
    requires d.funcs != []
  {
    NumText(|d.funcs| - 1) + FuncsText(d.funcs[1..], end)
  }

  function ImageTail(d: Def, end: string): string
    requires d.funcs != []
  {
    d.img + ("," + CountTail(d, end))
  }

  function NameTail(d: Def, end: string): string
    requires d.funcs != []
  {
    d.name + ("," + ImageTail(d, end))
  }

  function FlagTail(d: Def, end: string): string
    requires d.funcs != []
  {
    FlagText(d.flags) + ("," + NameTail(d, end))
  }

  function LineWith(d: Def, end: string): string
    requires d.addr >= 0 && d.funcs != []
  {
    NumText(d.addr) + ("," + FlagTail(d, end))
  }

  function PrintLine(d: Def): string
    requires d.addr >= 0 && d.funcs != []
  {
    LineWith(d, "")
  }

  /** A text that stands as one field: no separator and no NUL inside, no blank in front. */
  predicate Plain(s: string) {
    (forall i :: 0 <= i < |s| ==> !IsSep(s[i]) && s[i] != '\0') && (s != [] ==> !IsBlank(s[0]))
  }

  predicate Untrimmed(s: string) {
    s != [] ==> !IsSpace(s[|s| - 1])
  }

  /** A function name fits its 32 bytes, and a function that is off has no "=1" in its name. */
  predicate PlainFunc(f: Func) {
    Plain(FuncText(f)) && |f.name| <= 32 && (f.on || !Contains(f.name, "=1"))
  }

  ghost predicate AllPlain(fs: seq<Func>) {
    forall i :: 0 <= i < |fs| ==> PlainFunc(fs[i])
  }

  /** Flags that exist, and texts that are plain, trimmed and fit. */
  predicate SoundTexts(d: Def) {
    && (d.flags == F_DEFAULT || d.flags == F_DEC14 || d.flags == F_DEC28)
    && Plain(d.name) && Untrimmed(d.name) && |d.name| <= 19
    && Plain(d.img) && Untrimmed(d.img) && |d.img| <= 31
  }

  /** Flags that exist, texts that stand as fields, and functions that come back. */
  ghost predicate Writable(d: Def) {
    && (d.flags == F_DEFAULT || d.flags == F_DEC14 || d.flags == F_DEC28)
    && Plain(d.name) && Plain(d.img)
    && 1 <= |d.funcs| <= LocoTable.MAX_NFUNC && d.funcs[0] == HEADLIGHT && AllPlain(d.funcs[1..])
  }

  /** The definitions that survive a round trip. */
  ghost predicate Printable(d: Def) {
    && SoundTexts(d)
    && 1 <= |d.funcs| <= LocoTable.MAX_NFUNC && d.funcs[0] == HEADLIGHT && AllPlain(d.funcs[1..])
  }

  // ----- round trip -----

  /** What may follow a field: nothing or a separator. */
  predicate AtSep(rest: string) {
    rest == [] || rest[0] == ',' || rest[0] == '\r' || rest[0] == '\n'
  }

  lemma {:induction false} FieldOf(f: string, rest: string)
    requires (forall i :: 0 <= i < |f| ==> !IsSep(f[i])) && AtSep(rest)
    ensures FieldLen(f + rest) == |f| && Field(f + rest) == f
    decreases |f|
  {
    if f != [] {
      assert (f + rest)[1..] == f[1..] + rest;
      FieldOf(f[1..], rest);
    } else {
      assert f + rest == rest;
    }
    assert (f + rest)[..|f|] == f;
  }

  /** Moving over one field to a plain one. */
  lemma NextOf(f: string, g: string, rest: string)
    requires (forall i :: 0 <= i < |f| ==> !IsSep(f[i])) && Plain(g) && AtSep(rest)
    ensures GetNext(f + ("," + (g + rest))) == Ok(g + rest)
  {
    FieldOf(f, "," + (g + rest));
    var s := f + ("," + (g + rest));
    assert s[|f| + 1..] == g + rest;
    assert SkipBlanks(g + rest) == g + rest;
  }

  /** The value of a string of digits. */
  function Value(s: string, acc: int): int
    decreases |s|
  {
    if s == [] then acc else Value(s[1..], 10 * acc + (s[0] as int - '0' as int))
  }

  lemma {:induction false} DigitsSplit(s: string, rest: string, acc: int)
    requires forall i :: 0 <= i < |s| ==> IsDigit(s[i])
    ensures Digits(s + rest, acc) == Digits(rest, Value(s, acc))
    decreases |s|
  {
    if s == [] {
      assert s + rest == rest;
    } else {
      assert (s + rest)[1..] == s[1..] + rest;
      DigitsSplit(s[1..], rest, 10 * acc + (s[0] as int - '0' as int));
    }
  }

  lemma {:induction false} ValueSnoc(s: string, c: char, acc: int)
    ensures Value(s + [c], acc) == 10 * Value(s, acc) + (c as int - '0' as int)
    decreases |s|
  {
    if s == [] {
      assert ([] + [c])[1..] == [];
    } else {
      assert (s + [c])[1..] == s[1..] + [c];
      ValueSnoc(s[1..], c, 10 * acc + (s[0] as int - '0' as int));
    }
  }

  lemma {:induction false} NumValue(n: nat)
    ensures Value(NumText(n), 0) == n
    decreases n
  {
    var c := ('0' as int + n % 10) as char;
    if n < 10 {
      assert [c][1..] == [];
    } else {
      NumValue(n / 10);
      ValueSnoc(NumText(n / 10), c, 0);
    }
  }

  lemma AtoiOf(n: nat, rest: string)
    requires n < 0x8000_0000 && (rest == [] || !IsDigit(rest[0]))
    ensures Atoi(NumText(n) + rest) == n
  {
    DigitsSplit(NumText(n), rest, 0);
    NumValue(n);
    var s := NumText(n) + rest;
    assert s[0] == NumText(n)[0];
    assert Digits(rest, n) == n;
  }

  lemma {:induction false} ContainsSuffix(a: string, p: string)
    ensures Contains(a + p, p)
    decreases |a|
  {
    if a == [] {
      assert a + p == p;
    } else if !(p <= a + p) {
      assert (a + p)[1..] == a[1..] + p;
      ContainsSuffix(a[1..], p);
    }
  }

  lemma {:induction false} ContainsLength(s: string, p: string)
    requires Contains(s, p)
    ensures |s| >= |p|
    decreases |s|
  {
    if !(p <= s) {
      ContainsLength(s[1..], p);
    }
  }

  /**
   * A function field read back: the name must fit, and the mark "=1" is looked for in the whole field, so inside a name
   * it does no harm if the function is on and spoils the name if the function is off.
   */
  lemma FuncIff(f: Func)
    ensures ParseFunc(FuncText(f)) == f <==> |f.name| <= 32 && (f.on || !Contains(f.name, "=1"))
  {
    if f.on {
      ContainsSuffix(f.name, "=1");
      assert (f.name + "=1")[..|f.name|] == f.name;
    } else {
      assert f.name + "" == f.name;
      if Contains(f.name, "=1") {
        ContainsLength(f.name, "=1");
      }
    }
  }

  /** The functions fs were read and `end` is left of the line. */
  ghost predicate ReadBack(r: Result<(seq<Func>, string)>, fs: seq<Func>, end: string) {
    r.Ok? && r.value.0 == fs && FieldLen(r.value.1) + |end| == |r.value.1|
  }

  lemma ReadBackCons(s: string, t: string, f: Func, fs: seq<Func>, end: string)
    requires GetNext(s) == Ok(t) && ParseFunc(Field(t)) == f && ReadBack(ParseFuncs(t, |fs|), fs, end)
    ensures ReadBack(ParseFuncs(s, |fs| + 1), [f] + fs, end)
  {
  }

  lemma FuncHop(g: string, f: Func, rest: string)
    requires (forall i :: 0 <= i < |g| ==> !IsSep(g[i])) && PlainFunc(f) && AtSep(rest)
    ensures GetNext(g + ("," + (FuncText(f) + rest))) == Ok(FuncText(f) + rest)
    ensures ParseFunc(Field(FuncText(f) + rest)) == f
  {
    NextOf(g, FuncText(f), rest);
    FieldOf(FuncText(f), rest);
    FuncIff(f);
  }

  /** The function fields behind a field g come back in order. */
  lemma {:induction false} FuncsRoundTrip(g: string, fs: seq<Func>, end: string)
    requires forall i :: 0 <= i < |g| ==> !IsSep(g[i])
    requires AllPlain(fs) && AtSep(end)
    ensures ReadBack(ParseFuncs(g + FuncsText(fs, end), |fs|), fs, end)
    decreases |fs|
  {
    if fs == [] {
      FieldOf(g, end);
    } else {
      var h, rest := FuncText(fs[0]), FuncsText(fs[1..], end);
      FuncsTextAtSep(fs[1..], end);
      FuncHop(g, fs[0], rest);
      FuncsRoundTrip(h, fs[1..], end);
      ReadBackCons(g + FuncsText(fs, end), h + rest, fs[0], fs[1..], end);
      assert fs == [fs[0]] + fs[1..];
    }
  }

  lemma FlagRoundTrip(flags: nat, rest: string)
    requires flags == F_DEFAULT || flags == F_DEC14 || flags == F_DEC28
    ensures Plain(FlagText(flags)) && DecoderType(FlagText(flags) + rest) == flags
  {
    var s := FlagText(flags) + rest;
    if flags == F_DEC14 {
      assert s[..7] == "F_DEC14";
    } else if flags == F_DEC28 {
      assert s[..7] == "F_DEC28" && s[5] == '2';
    } else {
      assert s[4] == 'F';
    }
  }

  lemma NumIsPlain(n: nat)
    ensures Plain(NumText(n))
  {
  }

  /** What a line makes of texts that are too long or have white space at their end. */
  function Shortened(d: Def): Def {
    d.(name := TrimRight(Take(d.name, 19)), img := TrimRight(Take(d.img, 31)))
  }

  lemma FinishIs(addr: int32, flags: nat, name: string, img: string, s: string, fs: seq<Func>, end: string)
    requires Atoi(s) == |fs| < LocoTable.MAX_NFUNC && ReadBack(ParseFuncs(s, |fs|), fs, end)
    ensures Finish(addr, flags, name, img, s) ==
      if end == [] then Ok([Shortened(Def(addr, flags, name, img, [HEADLIGHT] + fs))]) else Err(SyntaxError)
  {
  }

  lemma FuncsTextAtSep(fs: seq<Func>, end: string)
    requires AtSep(end)
    ensures AtSep(FuncsText(fs, end))
  {
  }

  lemma CountedFuncs(fs: seq<Func>, end: string)
    requires |fs| < LocoTable.MAX_NFUNC && AllPlain(fs) && AtSep(end)
    ensures var s := NumText(|fs|) + FuncsText(fs, end);
      Atoi(s) == |fs| && ReadBack(ParseFuncs(s, |fs|), fs, end)
  {
    NumIsPlain(|fs|);
    FuncsTextAtSep(fs, end);
    AtoiOf(|fs|, FuncsText(fs, end));
    FuncsRoundTrip(NumText(|fs|), fs, end);
  }

  lemma TextKept(s: string, n: nat)
    requires Untrimmed(s) && |s| <= n
    ensures TrimRight(Take(s, n)) == s
  {
  }

  lemma FinishRoundTrip(d: Def, end: string)
    requires Writable(d) && AtSep(end)
    ensures Finish(d.addr, d.flags, d.name, d.img, CountTail(d, end))
      == if end == [] then Ok([Shortened(d)]) else Err(SyntaxError)
  {
    var fs := d.funcs[1..];
    CountedFuncs(fs, end);
    FinishIs(d.addr, d.flags, d.name, d.img, NumText(|fs|) + FuncsText(fs, end), fs, end);
    assert d.funcs == [HEADLIGHT] + fs;
  }

  lemma CountHop(d: Def, end: string)
    requires Writable(d) && AtSep(end)
    ensures GetNext(ImageTail(d, end)) == Ok(CountTail(d, end)) && Field(ImageTail(d, end)) == d.img
  {
    NumIsPlain(|d.funcs| - 1);
    FuncsTextAtSep(d.funcs[1..], end);
    NextOf(d.img, NumText(|d.funcs| - 1), FuncsText(d.funcs[1..], end));
    FieldOf(d.img, "," + CountTail(d, end));
  }

  lemma ImageHop(d: Def, end: string)
    requires Writable(d)
    ensures GetNext(NameTail(d, end)) == Ok(ImageTail(d, end)) && Field(NameTail(d, end)) == d.name
  {
    NextOf(d.name, d.img, "," + CountTail(d, end));
    FieldOf(d.name, "," + ImageTail(d, end));
  }

  lemma NameHop(d: Def, end: string)
    requires Writable(d)
    ensures GetNext(FlagTail(d, end)) == Ok(NameTail(d, end)) && DecoderType(FlagTail(d, end)) == d.flags
  {
    FlagRoundTrip(d.flags, "," + NameTail(d, end));
    NextOf(FlagText(d.flags), d.name, "," + ImageTail(d, end));
  }

  lemma FlagHop(d: Def, end: string)
    requires d.addr >= 0 && Writable(d)
    ensures GetNext(LineWith(d, end)) == Ok(FlagTail(d, end)) && Atoi(LineWith(d, end)) == d.addr
    ensures LineWith(d, end) != [] && LineWith(d, end)[0] != '#'
  {
    NumIsPlain(d.addr);
    FlagRoundTrip(d.flags, "," + NameTail(d, end));
    NextOf(NumText(d.addr), FlagText(d.flags), "," + NameTail(d, end));
    AtoiOf(d.addr, "," + FlagTail(d, end));
    assert LineWith(d, end)[0] == NumText(d.addr)[0];
  }

  lemma Hops(line: string, p1: string, p2: string, p3: string, p4: string)
    requires GetNext(line) == Ok(p1) && GetNext(p1) == Ok(p2) && GetNext(p2) == Ok(p3) && GetNext(p3) == Ok(p4)
    requires line != [] && line[0] != '#'
    ensures ParseText(line) == Finish(Atoi(line), DecoderType(p1), Field(p2), Field(p3), p4)
  {
  }

  lemma WrittenText(d: Def, end: string)
    requires d.addr >= 0 && Writable(d) && AtSep(end)
    ensures ParseText(LineWith(d, end)) == if end == [] then Ok([Shortened(d)]) else Err(SyntaxError)
  {
    FlagHop(d, end);
    NameHop(d, end);
    ImageHop(d, end);
    CountHop(d, end);
    FinishRoundTrip(d, end);
    Hops(LineWith(d, end), FlagTail(d, end), NameTail(d, end), ImageTail(d, end), CountTail(d, end));
  }

  lemma {:induction false} FuncsHaveNoNul(fs: seq<Func>, end: string)
    requires AllPlain(fs) && '\0' !in end
    ensures '\0' !in FuncsText(fs, end)
    decreases |fs|
  {
    if fs != [] {
      assert PlainFunc(fs[0]);
      FuncsHaveNoNul(fs[1..], end);
    }
  }

  lemma PlainHasNoNul(s: string, rest: string)
    requires Plain(s) && '\0' !in rest
    ensures '\0' !in s + rest && '\0' !in s + ("," + rest)
  {
  }

  lemma LineHasNoNul(d: Def, end: string)
    requires d.addr >= 0 && Writable(d) && '\0' !in end
    ensures '\0' !in LineWith(d, end)
  {
    FuncsHaveNoNul(d.funcs[1..], end);
    NumIsPlain(|d.funcs| - 1);
    PlainHasNoNul(NumText(|d.funcs| - 1), FuncsText(d.funcs[1..], end));
    PlainHasNoNul(d.img, CountTail(d, end));
    PlainHasNoNul(d.name, ImageTail(d, end));
    FlagRoundTrip(d.flags, "");
    PlainHasNoNul(FlagText(d.flags), NameTail(d, end));
    NumIsPlain(d.addr);
    PlainHasNoNul(NumText(d.addr), FlagTail(d, end));
  }

  /** A written loco comes back with its texts cut and trimmed; with anything behind its last function it is refused. */
  lemma WrittenLine(d: Def, end: string)
    requires d.addr >= 0 && Writable(d) && AtSep(end) && '\0' !in end
    ensures ParseLine(LineWith(d, end)) == if end == [] then Ok([Shortened(d)]) else Err(SyntaxError)
  {
    LineHasNoNul(d, end);
    WrittenText(d, end);
  }

  // ----- what the parser returns -----

  /** The field behind a separator is plain. */
  lemma NextIsPlain(s: string)
    requires '\0' !in s && GetNext(s).Ok?
    ensures '\0' !in GetNext(s).value && Plain(Field(GetNext(s).value))
  {
    var t := GetNext(s).value;
    assert forall c :: c in t ==> c in s[FieldLen(s) + 1..];
    assert forall i :: 0 <= i < |t| ==> t[i] in t;
  }

  lemma PrefixIsPlain(p: string, s: string)
    requires p <= s && Plain(s)
    ensures Plain(p)
  {
  }

  lemma {:induction false} TrimIsPrefix(s: string)
    ensures TrimRight(s) <= s && Untrimmed(TrimRight(s))
    decreases |s|
  {
    if s != [] && IsSpace(s[|s| - 1]) {
      TrimIsPrefix(s[..|s| - 1]);
    }
  }

  lemma TextIsPlain(field: string, n: nat)
    requires Plain(field)
    ensures var s := TrimRight(Take(field, n));
      Plain(s) && Untrimmed(s) && |s| <= n
  {
    TrimIsPrefix(Take(field, n));
    PrefixIsPlain(TrimRight(Take(field, n)), field);
  }

  lemma {:induction false} ContainsMore(s: string, t: string, p: string)
    requires s <= t && Contains(s, p)
    ensures Contains(t, p)
    decreases |s|
  {
    if !(p <= s) {
      ContainsMore(s[1..], t[1..], p);
    }
  }

  lemma FuncIsPlain(field: string)
    requires Plain(field)
    ensures PlainFunc(ParseFunc(field))
  {
    var f := ParseFunc(field);
    PrefixIsPlain(f.name, field);
    if !f.on {
      assert FuncText(f) == f.name;
      if Contains(f.name, "=1") {
        ContainsMore(f.name, field, "=1");
        ContainsLength(field, "=1");
      }
    }
  }

  lemma {:induction false} FuncsArePlain(s: string, n: nat)
    requires '\0' !in s && ParseFuncs(s, n).Ok?
    ensures |ParseFuncs(s, n).value.0| == n && AllPlain(ParseFuncs(s, n).value.0)
    decreases n
  {
    if n > 0 {
      NextIsPlain(s);
      var t := GetNext(s).value;
      FuncIsPlain(Field(t));
      FuncsArePlain(t, n - 1);
    }
  }

  lemma FinishIsPrintable(addr: int32, flags: nat, name: string, img: string, s: string)
    requires '\0' !in s && Plain(name) && Plain(img) && Finish(addr, flags, name, img, s).Ok?
    requires flags == F_DEFAULT || flags == F_DEC14 || flags == F_DEC28
    ensures var ds := Finish(addr, flags, name, img, s).value;
      |ds| == 1 && SoundTexts(ds[0]) && (ds[0].funcs != [] ==> Printable(ds[0]))
  {
    TextIsPlain(name, 19);
    TextIsPlain(img, 31);
    var n := Atoi(s);
    if n >= 0 {
      FuncsArePlain(s, n);
      var fs := ParseFuncs(s, n).value.0;
      assert ([HEADLIGHT] + fs)[1..] == fs;
    }
  }

  /** Whatever line is read, its definition has sound texts, and would survive a round trip if it has any function. */
  lemma ParsedIsPrintable(line: string)
    requires ParseLine(line).Ok?
    ensures forall d :: d in ParseLine(line).value ==> SoundTexts(d) && (d.funcs != [] ==> Printable(d))
    ensures forall d :: d in ParseLine(line).value && d.funcs != [] ==>
      |d.funcs| <= 32 && d.funcs[0] == Func("lHeadlight", true)
  {
    var s := CString(line);
    if ParseText(s).value != [] {
      NextIsPlain(s);
      var p1 := GetNext(s).value;
      NextIsPlain(p1);
      var p2 := GetNext(p1).value;
      NextIsPlain(p2);
      var p3 := GetNext(p2).value;
      NextIsPlain(p3);
      var p4 := GetNext(p3).value;
      FinishIsPrintable(Atoi(s), DecoderType(p1), Field(p2), Field(p3), p4);
    }
  }

  /** Printing a loco and parsing the line gives the same loco, if and only if the loco is printable. */
  lemma LineRoundTripIff(d: Def)
    requires d.addr > 0 && d.funcs != []
    ensures ParseLine(PrintLine(d)) == Ok([d]) <==> Printable(d)
  {
    if Printable(d) {
      WrittenLine(d, "");
      TextKept(d.name, 19);
      TextKept(d.img, 31);
    }
    if ParseLine(PrintLine(d)) == Ok([d]) {
      ParsedIsPrintable(PrintLine(d));
      assert d in [d];
    }
  }

  // ----- whole files -----

  /** Locos that can be printed at all: address 0 ends the table, and every loco has its headlight. */
  ghost predicate Usable(ds: seq<Def>) {
    forall d :: d in ds ==> d.addr > 0 && d.funcs != []
  }

  ghost function PrintFile(ds: seq<Def>): seq<string>
    requires Usable(ds)
  {
    if ds == [] then [] else [PrintLine(ds[0])] + PrintFile(ds[1..])
  }

  lemma {:induction false} FileIsPrintable(lines: seq<string>)
    requires ParseFile(lines).Ok?
    ensures forall d :: d in ParseFile(lines).value && d.funcs != [] ==> Printable(d)
    decreases |lines|
  {
    if lines != [] {
      ParsedIsPrintable(lines[0]);
      FileIsPrintable(lines[1..]);
    }
  }

  lemma {:induction false} FileRoundTrip(ds: seq<Def>)
    requires Usable(ds) && forall d :: d in ds ==> Printable(d)
    ensures ParseFile(PrintFile(ds)) == Ok(ds)
    decreases |ds|
  {
    if ds != [] {
      LineRoundTripIff(ds[0]);
      FileRoundTrip(ds[1..]);
      ParseFileCons(PrintLine(ds[0]), PrintFile(ds[1..]));
      assert ds == [ds[0]] + ds[1..];
    }
  }

  lemma ParseFileCons(line: string, lines: seq<string>)
    requires ParseLine(line).Ok? && ParseFile(lines).Ok?
    ensures ParseFile([line] + lines) == Ok(ParseLine(line).value + ParseFile(lines).value)
  {
  }

  /** A whole list of locos survives, in order, if and only if every loco in it does. */
  lemma FileRoundTripIff(ds: seq<Def>)
    requires Usable(ds)
    ensures ParseFile(PrintFile(ds)) == Ok(ds) <==> forall d :: d in ds ==> Printable(d)
  {
    if ParseFile(PrintFile(ds)) == Ok(ds) {
      FileIsPrintable(PrintFile(ds));
    } else if forall d :: d in ds ==> Printable(d) {
      FileRoundTrip(ds);
    }
  }

  /** "=1" inside the name of a function that is off switches it on and cuts the name; if it is on, all is well. */
  lemma MarkInsideName()
    ensures ParseFunc(FuncText(Func("a=1b", false))) == Func("a=", true)
    ensures ParseFunc(FuncText(Func("a=1b", true))) == Func("a=1b", true)
  {
    FuncIff(Func("a=1b", true));
    assert FuncText(Func("a=1b", false)) == "a=1b";
    assert "=1" <= "a=1b"[1..];
    assert "a=1b"[..2] == "a=";
  }

  // ----- how lines are read -----

  lemma {:induction false} TrimBlanks(s: string, blanks: string)
    requires Untrimmed(s) && forall i :: 0 <= i < |blanks| ==> blanks[i] in [' ', '\t', '\U{0B}', '\U{0C}']
    ensures TrimRight(s + blanks) == s
    decreases |blanks|
  {
    if blanks == [] {
      assert s + blanks == s;
    } else {
      var n := |blanks| - 1;
      assert (s + blanks)[..|s + blanks| - 1] == s + blanks[..n];
      TrimBlanks(s, blanks[..n]);
    }
  }

  /** White space at the end of a name is not part of it. */
  lemma BlanksAtEnd(d: Def, blanks: string)
    requires d.addr > 0 && Printable(d) && d.name != [] && |d.name| + |blanks| <= 19
    requires forall i :: 0 <= i < |blanks| ==> blanks[i] in [' ', '\t', '\U{0B}', '\U{0C}']
    ensures ParseLine(PrintLine(d.(name := d.name + blanks))) == Ok([d])
  {
    var d' := d.(name := d.name + blanks);
    WrittenLine(d', "");
    TrimBlanks(d.name, blanks);
    TextKept(d.img, 31);
  }

  /** A name is cut after 19 characters. */
  lemma LongName(d: Def, more: string)
    requires d.addr > 0 && Printable(d) && |d.name| == 19 && Plain(d.name + more)
    ensures ParseLine(PrintLine(d.(name := d.name + more))) == Ok([d])
  {
    var d' := d.(name := d.name + more);
    WrittenLine(d', "");
    assert Take(d'.name, 19) == d.name;
    TextKept(d.name, 19);
    TextKept(d.img, 31);
  }

  lemma {:induction false} FuncsWithEnd(fs: seq<Func>, end: string)
    ensures FuncsText(fs, end) == FuncsText(fs, "") + end
    decreases |fs|
  {
    if fs != [] {
      FuncsWithEnd(fs[1..], end);
    }
  }

  lemma LineEnds(d: Def, end: string)
    requires d.addr >= 0 && d.funcs != []
    ensures LineWith(d, end) == PrintLine(d) + end
  {
    FuncsWithEnd(d.funcs[1..], end);
    Regroup(NumText(|d.funcs| - 1), "", FuncsText(d.funcs[1..], ""), end);
    Regroup(d.img, ",", CountTail(d, ""), end);
    Regroup(d.name, ",", ImageTail(d, ""), end);
    Regroup(FlagText(d.flags), ",", NameTail(d, ""), end);
    Regroup(NumText(d.addr), ",", FlagTail(d, ""), end);
  }

  lemma Regroup(a: string, b: string, c: string, end: string)
    ensures a + (b + (c + end)) == a + (b + c) + end
    ensures a + (c + end) == a + c + end
  {
  }

  /** A carriage return at the end of a line counts as a separator, so a file with DOS line ends is refused. */
  lemma CarriageReturn(d: Def)
    requires d.addr > 0 && Printable(d)
    ensures ParseLine(PrintLine(d) + "\r") == Err(SyntaxError)
  {
    LineEnds(d, "\r");
    WrittenLine(d, "\r");
  }

  /** One function name more than the line announces is refused. */
  lemma TooManyNames(d: Def, more: string)
    requires d.addr > 0 && Printable(d) && '\0' !in more
    ensures ParseLine(PrintLine(d) + ("," + more)) == Err(SyntaxError)
  {
    LineEnds(d, "," + more);
    WrittenLine(d, "," + more);
  }

  lemma {:induction false} BlanksSkipped(blanks: string, s: string)
    requires forall i :: 0 <= i < |blanks| ==> blanks[i] in [' ', '\t']
    ensures SkipBlanks(blanks + s) == SkipBlanks(s)
    decreases |blanks|
  {
    if blanks == [] {
      assert blanks + s == s;
    } else {
      assert (blanks + s)[1..] == blanks[1..] + s;
      BlanksSkipped(blanks[1..], s);
    }
  }

  /** Blanks and tabs behind a comma do not matter. */
  lemma BlanksBehindComma(f: string, blanks: string, s: string)
    requires forall c :: c in f ==> c != ',' && c != '\r' && c != '\n'
    requires forall i :: 0 <= i < |blanks| ==> blanks[i] in [' ', '\t']
    ensures GetNext(f + ("," + (blanks + s))) == GetNext(f + ("," + s))
  {
    assert forall i :: 0 <= i < |f| ==> f[i] in f;
    FieldOf(f, "," + (blanks + s));
    FieldOf(f, "," + s);
    assert (f + ("," + (blanks + s)))[|f| + 1..] == blanks + s && (f + ("," + s))[|f| + 1..] == s;
    BlanksSkipped(blanks, s);
  }

  lemma {:induction false} ParseFileAppend(a: seq<string>, b: seq<string>)
    ensures ParseFile(a + b) == match ParseFile(a)
      case Ok(ds) => AllDefs(ds, ParseFile(b))
      case Err(e) => Err(e)
    decreases |a|
  {
    if a == [] {
      assert a + b == b;
      PrependDefs([], ParseFile(b));
    } else {
      assert (a + b)[0] == a[0] && (a + b)[1..] == a[1..] + b;
      ParseFileAppend(a[1..], b);
      if ParseLine(a[0]).Ok? && ParseFile(a[1..]).Ok? {
        DefsStep(ParseLine(a[0]).value, ParseFile(a[1..]).value, ParseFile(b));
      }
    }
  }

  /** A line that starts with '#', or that holds no comma and no line end, can be put in or taken out anywhere. */
  lemma SkippedLines(a: seq<string>, line: string, b: seq<string>)
    requires (line != [] && line[0] == '#') || forall c :: c in line ==> c != ',' && c != '\r' && c != '\n'
    ensures ParseFile(a + [line] + b) == ParseFile(a + b)
  {
    var s := CString(line);
    assert forall i :: 0 <= i < |s| ==> s[i] in line;
    assert ParseLine(line) == Ok([]);
    assert a + [line] + b == a + ([line] + b);
    ParseFileAppend(a, [line] + b);
    ParseFileAppend(a, b);
    assert ([line] + b)[1..] == b;
    PrependDefs([], ParseFile(b));
  }

  /** A line written out: address, decoder type, name, image, and the number of functions besides the headlight. */
  lemma LineExample(d: Def)
    requires d == Def(3, 2, "l", "i", [Func("lHeadlight", true)])
    ensures PrintLine(d) == "3,F_DEC28,l,i,0"
  {
    assert d.funcs[1..] == [];
    NumChar(d.addr);
    NumChar(|d.funcs| - 1);
    assert CountTail(d, "") == "0";
    assert NameTail(d, "") == "l,i,0";
    assert FlagTail(d, "") == "F_DEC28,l,i,0";
  }

  lemma FuncsExample(fs: seq<Func>)
    requires fs == [Func("x", true), Func("y", false)]
    ensures FuncsText(fs, "") == ",x=1,y"
  {
    assert fs[1..][1..] == [] && FuncText(fs[0]) == "x=1" && FuncText(fs[1..][0]) == "y";
    assert FuncsText(fs[1..], "") == ",y";
  }

  /** The other two decoder types. */
  lemma DecoderExamples(d: Def)
    requires 0 <= d.addr < 10 && d.name == "e" && d.img == "" && d.funcs == [Func("lHeadlight", true)] && d.flags < 2
    ensures PrintLine(d) == [(48 + d.addr) as char] + (if d.flags == 1 then ",F_DEC14,e,,0" else ",F_DEFAULT,e,,0")
  {
    assert d.funcs[1..] == [];
    NumChar(d.addr);
    NumChar(|d.funcs| - 1);
    assert CountTail(d, "") == "0";
    assert NameTail(d, "") == "e,,0";
    assert FlagTail(d, "") == if d.flags == 1 then "F_DEC14,e,,0" else "F_DEFAULT,e,,0";
  }

  lemma NumChar(n: nat)
    requires n < 10
    ensures NumText(n) == [(48 + n) as char]
  {
  }

  lemma NumberExamples()
    ensures Number(" \t-12x") == -12 && Number("+7") == 7 && Number("x") == 0
  {
    assert " \t-12x"[1..] == "\t-12x" && "\t-12x"[1..] == "-12x" && "-12x"[1..] == "12x";
    assert "12x"[1..] == "2x" && "2x"[1..] == "x" && "+7"[1..] == "7" && "7"[1..] == "";
    assert Digits("x", 12) == 12 && Digits("2x", 1) == 12 && Digits("12x", 0) == 12 && Digits("7", 0) == 7;
  }

  /** A count below 0 makes a loco without any function, not even the headlight. */
  lemma NegativeCount(addr: int32, flags: nat, name: string, img: string, s: string)
    requires Atoi(s) < 0 && forall c :: c in s ==> c != ',' && c != '\r' && c != '\n'
    ensures Finish(addr, flags, name, img, s)
      == Ok([Def(addr, flags, TrimRight(Take(name, 19)), TrimRight(Take(img, 31)), [])])
  {
    assert forall i :: 0 <= i < |s| ==> s[i] in s;
  }

  // ----- lines that are refused -----

  function Seps(s: string): nat {
    if s == [] then 0 else (if s[0] == ',' || s[0] == '\r' || s[0] == '\n' then 1 else 0) + Seps(s[1..])
  }

  lemma {:induction false} NextSeps(s: string)
    ensures GetNext(s).Ok? <==> Seps(s) > 0
    ensures GetNext(s).Ok? ==> Seps(GetNext(s).value) == Seps(s) - 1
    decreases |s|
  {
    if s != [] {
      if IsSep(s[0]) {
        SkipSeps(s[1..]);
        assert s[FieldLen(s) + 1..] == s[1..];
      } else {
        NextSeps(s[1..]);
        assert s[1..][FieldLen(s[1..])..] == s[FieldLen(s)..];
        if GetNext(s).Ok? {
          assert s[1..][FieldLen(s[1..]) + 1..] == s[FieldLen(s) + 1..];
        }
      }
    }
  }

  lemma {:induction false} SkipSeps(s: string)
    ensures Seps(SkipBlanks(s)) == Seps(s)
    decreases |s|
  {
    if s != [] && IsBlank(s[0]) {
      SkipSeps(s[1..]);
    }
  }

  /** A line with one to three separators, and so without all of its fields, is refused unless it is a comment. */
  lemma MissingFields(line: string)
    requires 1 <= Seps(CString(line)) <= 3 && (line != [] ==> line[0] != '#')
    ensures ParseLine(line) == Err(SyntaxError)
  {
    var s := CString(line);
    assert s != [] ==> s[0] == line[0];
    NextSeps(s);
    var p1 := GetNext(s).value;
    NextSeps(p1);
    if GetNext(p1).Ok? {
      var p2 := GetNext(p1).value;
      NextSeps(p2);
      if GetNext(p2).Ok? {
        NextSeps(GetNext(p2).value);
      }
    }
  }

  lemma {:induction false} FuncsRunOut(s: string, n: nat)
    requires n > Seps(s)
    ensures ParseFuncs(s, n) == Err(SyntaxError)
    decreases n
  {
    NextSeps(s);
    if GetNext(s).Ok? {
      FuncsRunOut(GetNext(s).value, n - 1);
    }
  }

  /** A line that announces more functions than it names is refused, and so is one that announces more than 31. */
  lemma WrongCount(addr: int32, flags: nat, name: string, img: string, s: string)
    requires Atoi(s) > Seps(s) || Atoi(s) > 31
    ensures Finish(addr, flags, name, img, s) == Err(if Atoi(s) > 31 then InvalidSize else SyntaxError)
  {
    if Atoi(s) <= 31 {
      FuncsRunOut(s, Atoi(s));
    }
  }
}
