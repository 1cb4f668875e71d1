/**
 * Directory names (used for blockchain and wallet names): the operating
 * system's string must be valid UTF-8 and must not contain `/` or `.`.
 *
 * The string is its bytes; UTF-8 well-formedness follows the syntax of
 * section 4 of RFC 3629.
 */
module DirectoryNames {
  import opened Types

  /** A continuation byte: 80-BF. */
  predicate Tail(b: byte) {
    0x80 <= b <= 0xBF
  }

  /**
   * The length of the well-formed UTF-8 character at the start of `b`, or 0
   * when `b` does not start with one (section 4 of RFC 3629: no overlong
   * forms, no surrogates, nothing above U+10FFFF).
   */
  function CharLen(b: seq<byte>): (n: nat)
    ensures n <= 4 && n <= |b|
    ensures b != [] && b[0] < 0x80 ==> n == 1
    ensures n > 1 ==> b[0] >= 0xC2 && forall j :: 1 <= j < n ==> Tail(b[j])
  {
    if b == [] then 0
    else if b[0] <= 0x7F then 1
    else if 0xC2 <= b[0] <= 0xDF then
      if |b| >= 2 && Tail(b[1]) then 2 else 0
    else if 0xE0 <= b[0] <= 0xEF then
      if |b| >= 3 && Tail(b[1]) && Tail(b[2]) &&
         (b[0] != 0xE0 || b[1] >= 0xA0) && (b[0] != 0xED || b[1] <= 0x9F)
      then 3 else 0
    else if 0xF0 <= b[0] <= 0xF4 then
      if |b| >= 4 && Tail(b[1]) && Tail(b[2]) && Tail(b[3]) &&
         (b[0] != 0xF0 || b[1] >= 0x90) && (b[0] != 0xF4 || b[1] <= 0x8F)
      then 4 else 0
    else 0
  }

  /** The code point of the character at the start of `b`. */
  function CodePoint(b: seq<byte>): (c: nat)
    requires CharLen(b) > 0
    ensures CharLen(b) > 1 ==> c >= 0x80
    ensures CharLen(b) == 1 ==> c == b[0]
  {
    var n := CharLen(b);
    var b0 := b[0] as int;
    if n == 1 then b0
    else if n == 2 then (b0 - 0xC0) * 0x40 + (b[1] as int - 0x80)
    else if n == 3 then (b0 - 0xE0) * 0x1000 + (b[1] as int - 0x80) * 0x40 + (b[2] as int - 0x80)
    else (b0 - 0xF0) * 0x40000 + (b[1] as int - 0x80) * 0x1000 + (b[2] as int - 0x80) * 0x40 + (b[3] as int - 0x80)
  }

  /** The bytes are a sequence of well-formed UTF-8 characters. */
  predicate ValidUtf8(b: seq<byte>)
    decreases |b|
  {
    b == [] || (CharLen(b) > 0 && ValidUtf8(b[CharLen(b)..]))
  }

  const SLASH: byte := 0x2F
  const DOT: byte := 0x2E

  predicate IsSeparatorByte(b: byte) {
    b == SLASH || b == DOT
  }

  /**
   * `str::find` for `/` or `.`: walks the string character by character and
   * gives the byte offset of the first such character.
   */
  function FindSeparator(b: seq<byte>): (r: Option<nat>)
    requires ValidUtf8(b)
    decreases |b|
    ensures r.Some? ==>
      r.value < |b| && IsSeparatorByte(b[r.value]) &&
      forall j :: 0 <= j < r.value ==> !IsSeparatorByte(b[j])
    ensures r.None? ==> forall j :: 0 <= j < |b| ==> !IsSeparatorByte(b[j])
  {
    if b == [] then None
    else
      var c := CodePoint(b);
      if c == SLASH as nat || c == DOT as nat then Some(0)
      else
        var n := CharLen(b);
        match FindSeparator(b[n..])
        case None => None
        case Some(i) => Some(n + i)
  }

  datatype DirectoryNameError =
    | InvalidCharacterAtIndex(index: nat)
    | UnsupportedCharacters(bytes: seq<byte>)

  /** A validated name; dereferencing it gives the stored string. */
  datatype DirectoryName = DirectoryName(name: seq<byte>)

  /**
   * `DirectoryName::new`: a string that is not UTF-8 is refused with the
   * original bytes; one holding `/` or `.` is refused with the byte offset of
   * the first one; any other string is kept unchanged.
   */
  function New(oss: seq<byte>): (r: Result<DirectoryName, DirectoryNameError>)
    ensures !ValidUtf8(oss) <==> r == Err(UnsupportedCharacters(oss))
    ensures r.Ok? <==> ValidUtf8(oss) && forall j :: 0 <= j < |oss| ==> !IsSeparatorByte(oss[j])
    ensures r.Ok? ==> r.value.name == oss
    ensures r.Err? && r.error.InvalidCharacterAtIndex? ==>
      var i := r.error.index;
      i < |oss| && IsSeparatorByte(oss[i]) && forall j :: 0 <= j < i ==> !IsSeparatorByte(oss[j])
  {
    if !ValidUtf8(oss) then Err(UnsupportedCharacters(oss))
    else
      match FindSeparator(oss)
      case Some(index) => Err(InvalidCharacterAtIndex(index))
      case None => Ok(DirectoryName(oss))
  }

  // ---------------------------------------------------------------------------
  // Examples
  // ---------------------------------------------------------------------------

  /** The bytes of an ASCII string. */
  function Ascii(s: string): (b: seq<byte>)
    requires forall i :: 0 <= i < |s| ==> s[i] < 128 as char
    ensures |b| == |s| && forall i :: 0 <= i < |s| ==> b[i] == s[i] as int
    ensures forall i :: 0 <= i < |b| ==> b[i] < 0x80
  {
    seq(|s|, i requires 0 <= i < |s| => s[i] as int)
  }

  lemma {:induction false} AsciiIsValid(b: seq<byte>)
    requires forall i :: 0 <= i < |b| ==> b[i] < 0x80
    ensures ValidUtf8(b)
    decreases |b|
  {
    if b != [] {
      AsciiIsValid(b[1..]);
    }
  }

  /** A character is read from its own bytes only. */
  lemma CharLenExtends(a: seq<byte>, b: seq<byte>)
    requires CharLen(a) > 0
    ensures CharLen(a + b) == CharLen(a)
  {
    assert forall j :: 0 <= j < |a| ==> (a + b)[j] == a[j];
  }

  lemma {:induction false} ValidAppend(a: seq<byte>, b: seq<byte>)
    requires ValidUtf8(a) && ValidUtf8(b)
    ensures ValidUtf8(a + b)
    decreases |a|
  {
    if a != [] {
      var n := CharLen(a);
      assert CharLen(a) > 0 && ValidUtf8(a[n..]);
      CharLenExtends(a, b);
      ValidAppend(a[n..], b);
      assert (a + b)[n..] == a[n..] + b;
      assert ValidUtf8((a + b)[CharLen(a + b)..]);
    } else {
      assert a + b == b;
    }
  }

  /** A UTF-8 name is refused at its first `/` or `.`. */
  lemma Refused(b: seq<byte>, i: nat)
    requires ValidUtf8(b) && i < |b| && IsSeparatorByte(b[i])
    requires forall j :: 0 <= j < i ==> !IsSeparatorByte(b[j])
    ensures New(b) == Err(InvalidCharacterAtIndex(i))
  {
  }

  /** A UTF-8 name without `/` or `.` is accepted as it is. */
  lemma Accepted(b: seq<byte>)
    requires ValidUtf8(b) && forall j :: 0 <= j < |b| ==> !IsSeparatorByte(b[j])
    ensures New(b) == Ok(DirectoryName(b))
  {
  }

  /** "directory" followed by a separator and more text ("directory/1", "directory.2") is refused at byte 9. */
  lemma SeparatorExample(sep: char, tail: string)
    requires sep == '/' || sep == '.'
    requires forall j :: 0 <= j < |tail| ==> tail[j] < 128 as char
    ensures New(Ascii("directory" + [sep] + tail)) == Err(InvalidCharacterAtIndex(9))
  {
    var b := Ascii("directory" + [sep] + tail);
    AsciiIsValid(b);
    assert forall j :: 0 <= j < 9 ==> b[j] == "directory"[j] as int;
    Refused(b, 9);
  }

  /** A space is accepted. */
  lemma AcceptedSpace(b: seq<byte>)
    requires b == Ascii("directory 2")
    ensures New(b) == Ok(DirectoryName(b))
  {
    AsciiIsValid(b);
    assert forall j :: 0 <= j < |b| ==> b[j] == "directory 2"[j] as int;
    Accepted(b);
  }

  /** A non-ASCII character (U+1F4E6, four bytes) is accepted. */
  lemma AcceptedNonAscii(prefix: seq<byte>, package: seq<byte>)
    requires prefix == Ascii("directory ") && package == [0xF0, 0x9F, 0x93, 0xA6]
    ensures New(prefix + package) == Ok(DirectoryName(prefix + package))
  {
    assert CharLen(package) == 4 && package[4..] == [];
    AsciiIsValid(prefix);
    ValidAppend(prefix, package);
    var b := prefix + package;
    assert forall j :: 0 <= j < |b| ==> !IsSeparatorByte(b[j]) by {
      assert forall j :: 0 <= j < |prefix| ==> b[j] == prefix[j] == "directory "[j] as int;
      assert forall j :: |prefix| <= j < |b| ==> b[j] >= 0x80;
    }
    Accepted(b);
  }

  /** Bytes that are not UTF-8 are refused and returned as they were. */
  lemma InvalidEncodingExample()
    ensures New([0xFE, 0xFF, 0xFE, 0xFE, 0xFF, 0xFF]) ==
      Err(UnsupportedCharacters([0xFE, 0xFF, 0xFE, 0xFE, 0xFF, 0xFF]))
  {
  }
}
