/** The game's own character encoding, as far as the converter decodes it: bytes 161 to 238
    stand for the 78 characters of `Alphabet`, every other byte for a space, and the
    decoded text loses its leading and trailing spaces. Byte 239 is one past the end of
    the alphabet; looking it up raises an index error. */
module Text {
  import opened Bytes
  import opened Outcomes

  /** Digits, four punctuation marks, nine spaces, a comma, two spaces, then the capital and
      the small letters. */
  const Alphabet: string := "0123456789!?.-         ,  ABCDEFGHIJKLMNOPQRSTUVWXYZabcdefghijklmnopqrstuvwxyz"

  /** The first byte that stands for a character of the alphabet. */
  const FirstChar: nat := 161

  /** The byte whose lookup runs one past the end of the alphabet. */
  const PastEnd: byte := 239

  /** The character a byte other than `PastEnd` decodes to. */
  function DecodeChar(b: byte): char
    requires b != PastEnd
  {
    if b < FirstChar || b - FirstChar > |Alphabet| then ' ' else Alphabet[b - FirstChar]
  }

  /** Every byte decoded, before the spaces at either end are removed. */
  function DecodeChars(text: seq<byte>): (r: string)
    requires forall k :: 0 <= k < |text| ==> text[k] != PastEnd
    ensures |r| == |text|
  {
    if text == [] then [] else DecodeChars(text[..|text| - 1]) + [DecodeChar(text[|text| - 1])]
  }

  /** `s.lstrip()`: the suffix that is left once the leading spaces are gone. */
  function TrimStart(s: string): (r: string)
    ensures |r| <= |s| && r == s[|s| - |r|..]
    ensures r == [] || r[0] != ' '
    ensures forall k :: 0 <= k < |s| - |r| ==> s[k] == ' '
  {
    if s != [] && s[0] == ' ' then TrimStart(s[1..]) else s
  }

  /** `s.rstrip()`: the prefix that is left once the trailing spaces are gone. */
  function TrimEnd(s: string): (r: string)
    ensures |r| <= |s| && r == s[..|r|]
    ensures r == [] || r[|r| - 1] != ' '
    ensures forall k :: |r| <= k < |s| ==> s[k] == ' '
  {
    if s != [] && s[|s| - 1] == ' ' then TrimEnd(s[..|s| - 1]) else s
  }

  /** `s.strip()`. The decoded alphabet holds no whitespace other than the space. */
  function Strip(s: string): string
  {
    TrimEnd(TrimStart(s))
  }

  /** What `decodeString` returns, or the error it raises. */
  function Decoding(text: seq<byte>): Result<string>
  {
    if exists k :: 0 <= k < |text| && text[k] == PastEnd then Err(IndexError)
    else Ok(Strip(DecodeChars(text)))
  }

  /** `decodeString`: the character loop, which stops at the first byte it cannot look up. */
  method DecodeString(text: seq<byte>) returns (res: Result<string>)
    ensures res == Decoding(text)
  {
    var ret := "";
    var i := 0;
    while i < |text|
      invariant 0 <= i <= |text|
      invariant forall k :: 0 <= k < i ==> text[k] != PastEnd
      invariant ret == DecodeChars(text[..i])
    {
      var c := text[i] - FirstChar;
      if c < 0 || c > |Alphabet| {
        ret := ret + " ";
      } else if c == |Alphabet| {
        return Err(IndexError);
      } else {
        ret := ret + [Alphabet[c]];
      }
      assert text[..i + 1][..i] == text[..i];
      i := i + 1;
    }
    assert text[..i] == text;
    res := Ok(Strip(ret));
  }

  /** Number of spaces `lstrip` removes. */
  function Lead(s: string): nat
  {
    |s| - |TrimStart(s)|
  }

  /** `strip` removes exactly the spaces at either end: the result is the slice of `s` after
      `Lead(s)` spaces, only spaces follow it, and it neither starts nor ends with one. */
  lemma StripTrims(s: string)
    ensures Lead(s) + |Strip(s)| <= |s|
    ensures Strip(s) == s[Lead(s)..Lead(s) + |Strip(s)|]
    ensures forall k :: 0 <= k < Lead(s) ==> s[k] == ' '
    ensures forall k :: Lead(s) + |Strip(s)| <= k < |s| ==> s[k] == ' '
    ensures Strip(s) == [] || (Strip(s)[0] != ' ' && Strip(s)[|Strip(s)| - 1] != ' ')
  {
    var t := TrimStart(s);
    var r := TrimEnd(t);
    var i := Lead(s);
    SliceOfSuffix(s, i, |r|);
    forall k | i + |r| <= k < |s|
      ensures s[k] == ' '
    {
      assert s[k] == t[k - i];
    }
    if r != [] {
      assert r[0] == t[0];
    }
  }

  lemma SliceOfSuffix(s: string, i: nat, n: nat)
    requires i + n <= |s|
    ensures s[i..][..n] == s[i..i + n]
  {
  }

  /** A text made only of bytes that decode to spaces decodes to the empty string. */
  lemma {:induction false} BlankDecodesEmpty(text: seq<byte>)
    requires forall k :: 0 <= k < |text| ==> text[k] < FirstChar
    ensures Decoding(text) == Ok([])
  {
    var s := DecodeChars(text);
    BlankChars(text);
    assert forall k :: 0 <= k < |s| ==> s[k] == ' ';
  }

  lemma {:induction false} BlankChars(text: seq<byte>)
    requires forall k :: 0 <= k < |text| ==> text[k] < FirstChar
    ensures forall k :: 0 <= k < |text| ==> DecodeChars(text)[k] == ' '
  {
    if text != [] {
      BlankChars(text[..|text| - 1]);
    }
  }

  /** Each byte in 161..238 decodes to the character at its place in the alphabet,
      whatever surrounds it. */
  lemma {:induction false} DecodeCharsAt(text: seq<byte>, k: nat)
    requires forall i :: 0 <= i < |text| ==> text[i] != PastEnd
    requires k < |text|
    ensures DecodeChars(text)[k] == DecodeChar(text[k])
  {
    if k < |text| - 1 {
      DecodeCharsAt(text[..|text| - 1], k);
    }
  }
}
