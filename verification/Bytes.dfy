// Bytes on the wire: little-endian integers as the protocol writes them.
module Bytes {

  type byte = x: int | 0 <= x < 256
  type int32 = x: int | -0x8000_0000 <= x < 0x8000_0000

  /** The outcome of an operation that the program ends with an exception on failure. */
  datatype Result<+T> = Ok(value: T) | Err(error: Error) {
    predicate IsFailure() {
      Err?
    }

    function PropagateFailure<U>(): Result<U>
      requires Err?
    {
      Err(error)
    }

    function Extract(): T
      requires Ok?
    {
      value
    }
  }

  /** One constructor per throw statement of the modelled code (NullData stands for a null dereference). */
  datatype Error =
    | Overrun
    | UnexpectedType
    | NotAStruct
    | UnsetType
    | NoLayout
    | StringTooBig
    | FieldNotSet
    | FieldTypeMismatch
    | NullData
    | SyntaxError
    | InvalidSize
    | ConnectionLost
    | UnknownName

  /** The unsigned reading of the low 32 bits. */
  function Unsigned32(x: int): (u: nat)
    ensures u < 0x1_0000_0000
  {
    x % 0x1_0000_0000
  }

  /** Two's complement reduction to 32 bits. */
  function Wrap32(x: int): (r: int32)
    ensures (r - x) % 0x1_0000_0000 == 0
  {
    var u := Unsigned32(x);
    if u < 0x8000_0000 then u else u - 0x1_0000_0000
  }

  /** The low two bytes of n, least significant first. */
  function Le16(n: nat): (s: seq<byte>)
    ensures |s| == 2
  {
    [n % 256, n / 256 % 256]
  }

  function FromLe16(s: seq<byte>): (n: nat)
    requires |s| == 2
    ensures n < 0x1_0000
  {
    var lo: int, hi: int := s[0], s[1];
    lo + 256 * hi
  }

  /** The four bytes of an unsigned word, least significant first. */
  function Digits(u: nat): (s: seq<byte>)
    ensures |s| == 4
  {
    var v := u / 256;
    var w := v / 256;
    [u % 256, v % 256, w % 256, w / 256 % 256]
  }

  /** The unsigned word with the given bytes, least significant first. */
  function Word(s: seq<byte>): (u: nat)
    requires |s| == 4
    ensures u < 0x1_0000_0000
  {
    var b0: int, b1: int, b2: int, b3: int := s[0], s[1], s[2], s[3];
    b0 + 256 * (b1 + 256 * (b2 + 256 * b3))
  }

  /** The four bytes of an int, least significant first. */
  function Le32(i: int32): (s: seq<byte>)
    ensures |s| == 4
  {
    Digits(Unsigned32(i))
  }

  function FromLe32(s: seq<byte>): (i: int32)
    requires |s| == 4
  {
    Wrap32(Word(s))
  }

  lemma Le16RoundTrip(n: nat)
    ensures FromLe16(Le16(n)) == n % 0x1_0000
  {
    var q := n / 256;
    assert n == 256 * q + n % 256 && q == 256 * (q / 256) + q % 256;
    assert n == 0x1_0000 * (q / 256) + (256 * (q % 256) + n % 256);
  }

  lemma Le16Exact(s: seq<byte>)
    requires |s| == 2
    ensures Le16(FromLe16(s)) == s
  {
  }

  lemma WordOfDigits(u: nat)
    requires u < 0x1_0000_0000
    ensures Word(Digits(u)) == u
  {
  }

  lemma DigitsOfWord(s: seq<byte>)
    requires |s| == 4
    ensures Digits(Word(s)) == s
  {
    var b0: int, b1: int, b2: int, b3: int := s[0], s[1], s[2], s[3];
    var w := b2 + 256 * b3;
    var v := b1 + 256 * w;
    var u := b0 + 256 * v;
    assert u / 256 == v && u % 256 == b0;
    assert v / 256 == w && v % 256 == b1;
    assert w / 256 == b3 && w % 256 == b2;
  }

  lemma WrapUnsigned(i: int32)
    ensures Wrap32(Unsigned32(i)) == i
  {
  }

  lemma UnsignedWrap(u: nat)
    requires u < 0x1_0000_0000
    ensures Unsigned32(Wrap32(u)) == u
  {
  }

  lemma WrapSum(a: int, b: int)
    ensures Wrap32(Wrap32(a) + b) == Wrap32(a + b)
  {
  }

  lemma WrapEqualIff(a: int, b: int)
    ensures Wrap32(a) == Wrap32(b) <==> (a - b) % 0x1_0000_0000 == 0
  {
    var m := 0x1_0000_0000;
    assert a == m * (a / m) + a % m && b == m * (b / m) + b % m;
  }

  lemma WrapDifference(a: int, b: int)
    ensures (Wrap32(a) - Wrap32(b) - (a - b)) % 0x1_0000_0000 == 0
  {
    var m := 0x1_0000_0000;
    var x, y := (Wrap32(a) - a) / m, (Wrap32(b) - b) / m;
    assert Wrap32(a) - a == m * x && Wrap32(b) - b == m * y;
    assert Wrap32(a) - Wrap32(b) - (a - b) == m * (x - y);
  }

  lemma WrapClose(a: int, b: int, delta: int)
    requires a - b == delta && -256 < delta < 256
    ensures (Wrap32(a) - Wrap32(b) - delta) % 0x1_0000_0000 == 0
    ensures Wrap32(a) == Wrap32(b) <==> delta == 0
  {
    WrapDifference(a, b);
    WrapEqualIff(a, b);
  }

  lemma Le32RoundTrip(i: int32)
    ensures FromLe32(Le32(i)) == i
  {
    WordOfDigits(Unsigned32(i));
    WrapUnsigned(i);
  }

  lemma Le32Exact(s: seq<byte>)
    requires |s| == 4
    ensures Le32(FromLe32(s)) == s
  {
    UnsignedWrap(Word(s));
    DigitsOfWord(s);
  }
}
