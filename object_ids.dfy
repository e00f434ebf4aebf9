/** The textual form of a BSON ObjectId: twelve bytes written as 24 hex digits.
    `IsObjectIdHex` is the shape check both stores run before any database work,
    `ObjectIdHex` turns an accepted string into the key the collection is indexed
    by, and `Hex` is how a freshly generated id is written out. */
module ObjectIds {

  type Byte = b: int | 0 <= b < 256

  /** The twelve raw bytes of an ObjectId; the collection is keyed by these. */
  type ObjectId = s: seq<Byte> | |s| == 12
    witness [0, 0, 0, 0, 0, 0, 0, 0, 0, 0, 0, 0]

  predicate IsHexDigit(c: char) {
    '0' <= c <= '9' || 'a' <= c <= 'f' || 'A' <= c <= 'F'
  }

  predicate IsHex(s: string) {
    forall i :: 0 <= i < |s| ==> IsHexDigit(s[i])
  }

  /** bson.IsObjectIdHex: exactly 24 characters, every one a hex digit (either case).
      The check ignores case: a string passes iff its lower-cased form is 24
      lower-case hex digits. */
  function IsObjectIdHex(s: string): (b: bool)
    ensures b <==> |s| == 24 && IsLowerHex(Lower(s))
  {
    LowerHex(s);
    |s| == 24 && IsHex(s)
  }

  function DigitValue(c: char): (v: nat)
    requires IsHexDigit(c)
    ensures v < 16
  {
    if '0' <= c <= '9' then c as int - '0' as int
    else if 'a' <= c <= 'f' then c as int - 'a' as int + 10
    else c as int - 'A' as int + 10
  }

  /** The lower-case digit for a nibble, as hex encoding writes it. */
  function LowerDigit(v: nat): (c: char)
    requires v < 16
    ensures IsHexDigit(c) && !('A' <= c <= 'F')
    ensures DigitValue(c) == v
  {
    if v < 10 then ('0' as int + v) as char else ('a' as int + v - 10) as char
  }

  predicate IsLowerHex(s: string) {
    forall i :: 0 <= i < |s| ==> IsHexDigit(s[i]) && !('A' <= s[i] <= 'F')
  }

  /** Hex encoding of a byte string: two lower-case digits per byte, high nibble first. */
  function Hex(b: seq<Byte>): (s: string)
    ensures |s| == 2 * |b|
    ensures IsLowerHex(s)
  {
    if b == [] then []
    else [LowerDigit(b[0] / 16), LowerDigit(b[0] % 16)] + Hex(b[1..])
  }

  /** Hex decoding of an even-length string of hex digits (either case). */
  function Unhex(s: string): (b: seq<Byte>)
    requires |s| % 2 == 0 && IsHex(s)
    ensures |b| == |s| / 2
  {
    if s == [] then []
    else [DigitValue(s[0]) * 16 + DigitValue(s[1])] + Unhex(s[2..])
  }

  /** bson.ObjectIdHex: the ObjectId a well-formed hex string denotes; written
      back out it is the string, lower-cased. */
  function ObjectIdHex(s: string): (id: ObjectId)
    requires IsObjectIdHex(s)
    ensures Hex(id) == Lower(s)
  {
    HexUnhex(s);
    Unhex(s)
  }

  function LowerChar(c: char): char {
    if 'A' <= c <= 'Z' then (c as int - 'A' as int + 'a' as int) as char else c
  }

  /** ASCII lower-casing, character by character. */
  function Lower(s: string): (t: string)
    ensures |t| == |s|
    ensures forall i :: 0 <= i < |s| ==> t[i] == LowerChar(s[i])
  {
    seq(|s|, i requires 0 <= i < |s| => LowerChar(s[i]))
  }

  /** A string is hex digits (either case) exactly when lower-casing it gives lower-case hex digits. */
  lemma LowerHex(s: string)
    ensures IsHex(s) <==> IsLowerHex(Lower(s))
  {
    assert forall i :: 0 <= i < |s| ==>
      (IsHexDigit(s[i]) <==> IsHexDigit(Lower(s)[i]) && !('A' <= Lower(s)[i] <= 'F'));
  }

  /** Decoding undoes encoding: every byte string survives a trip through hex. */
  lemma {:induction false} UnhexHex(b: seq<Byte>)
    ensures Unhex(Hex(b)) == b
  {
    if b != [] {
      var s := Hex(b);
      assert s[2..] == Hex(b[1..]);
      UnhexHex(b[1..]);
      assert DigitValue(s[0]) * 16 + DigitValue(s[1]) == b[0];
    }
  }

  /** Encoding a decoded string gives back the string, lower-cased. */
  lemma {:induction false} HexUnhex(s: string)
    requires |s| % 2 == 0 && IsHex(s)
    ensures Hex(Unhex(s)) == Lower(s)
  {
    if s != [] {
      var hi, lo := DigitValue(s[0]), DigitValue(s[1]);
      var v := hi * 16 + lo;
      SplitByte(hi, lo);
      calc {
        Hex(Unhex(s));
        { assert Unhex(s) == [v] + Unhex(s[2..]); }
        Hex([v] + Unhex(s[2..]));
        { HexCons(v, Unhex(s[2..])); }
        [LowerDigit(hi), LowerDigit(lo)] + Hex(Unhex(s[2..]));
        { HexUnhex(s[2..]); DigitOfValue(s[0]); DigitOfValue(s[1]); }
        [LowerChar(s[0]), LowerChar(s[1])] + Lower(s[2..]);
        { LowerCons(s); }
        Lower(s);
      }
    }
  }

  /** A byte made of two nibbles splits back into them. */
  lemma SplitByte(hi: nat, lo: nat)
    requires hi < 16 && lo < 16
    ensures (hi * 16 + lo) / 16 == hi && (hi * 16 + lo) % 16 == lo
  {
  }

  /** Hex of a byte followed by more bytes: the byte's two digits, then the rest. */
  lemma HexCons(v: Byte, rest: seq<Byte>)
    ensures Hex([v] + rest) == [LowerDigit(v / 16), LowerDigit(v % 16)] + Hex(rest)
  {
    assert ([v] + rest)[1..] == rest;
  }

  /** Lower-casing a string of two or more characters, one pair at the front. */
  lemma LowerCons(s: string)
    requires |s| >= 2
    ensures Lower(s) == [LowerChar(s[0]), LowerChar(s[1])] + Lower(s[2..])
  {
  }

  lemma DigitOfValue(c: char)
    requires IsHexDigit(c)
    ensures LowerDigit(DigitValue(c)) == LowerChar(c)
  {
  }

  /** A generated id is well formed and denotes the bytes it was generated from. */
  lemma GeneratedIdRoundTrip(id: ObjectId)
    ensures IsObjectIdHex(Hex(id))
    ensures ObjectIdHex(Hex(id)) == id
  {
    UnhexHex(id);
  }

  /** Two accepted id strings name the same record exactly when they agree up to case. */
  lemma SameObjectId(s: string, t: string)
    requires IsObjectIdHex(s) && IsObjectIdHex(t)
    ensures ObjectIdHex(s) == ObjectIdHex(t) <==> Lower(s) == Lower(t)
  {
    HexUnhex(s);
    HexUnhex(t);
    if Lower(s) == Lower(t) {
      assert Hex(Unhex(s)) == Hex(Unhex(t));
      UnhexHex(Unhex(s));
      UnhexHex(Unhex(t));
    }
  }
}
