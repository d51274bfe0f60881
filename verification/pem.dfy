/**
 PEM armouring of a public key, as `getPEM` writes it: a fixed header line,
 the base64 text broken into lines of 64 characters as in section 2 of
 RFC 7468, and a fixed footer line. Foundation's line-length option puts a
 separator between lines and none after the last one; the carriage-return
 option makes that separator a lone CR.
 */
module Pem {
  import opened Wrappers
  import opened Base64

  const LineLength: nat := 64
  const LineSeparator: char := '\r'
  const Header: string := "-----BEGIN PUBLIC KEY-----\n"
  const Footer: string := "\n-----END PUBLIC KEY-----"

  /** The lines laid end to end. */
  function Concat(lines: seq<string>): string {
    if |lines| == 0 then [] else lines[0] + Concat(lines[1..])
  }

  /**
   `s` cut into lines: every line but the last has exactly LineLength
   characters, the last has between 1 and LineLength, and nothing is lost.
   */
  function Chunks(s: string): (lines: seq<string>)
    ensures Concat(lines) == s
    ensures |lines| == (|s| + LineLength - 1) / LineLength
    ensures forall i :: 0 <= i < |lines| - 1 ==> |lines[i]| == LineLength
    ensures |lines| > 0 ==> 0 < |lines[|lines| - 1]| <= LineLength
    decreases |s|
  {
    if |s| == 0 then []
    else if |s| <= LineLength then [s]
    else
      var rest := Chunks(s[LineLength..]);
      assert s[..LineLength] + s[LineLength..] == s;
      [s[..LineLength]] + rest
  }

  /** The lines with `sep` between consecutive ones and after none of them. */
  function JoinLines(lines: seq<string>, sep: char): string {
    if |lines| == 0 then []
    else if |lines| == 1 then lines[0]
    else lines[0] + [sep] + JoinLines(lines[1..], sep)
  }

  /** The text between the occurrences of `sep`; there is always at least one piece. */
  function SplitLines(s: string, sep: char): (lines: seq<string>)
    ensures |lines| > 0
    decreases |s|
  {
    if |s| == 0 then [[]]
    else
      var rest := SplitLines(s[1..], sep);
      if s[0] == sep then [[]] + rest
      else [[s[0]] + rest[0]] + rest[1..]
  }

  /** The base64 text as getPEM lays it out between header and footer. */
  function Wrap(s: string): string {
    JoinLines(Chunks(s), LineSeparator)
  }

  /**
   The PEM text for the external representation of a public key. It opens
   with the header and closes with the footer; everything derived from the
   key lies in between.
   */
  function GetPEM(publicKeyData: seq<byte>): (pem: string)
    ensures |pem| >= |Header| + |Footer|
    ensures pem[..|Header|] == Header
    ensures pem[|pem| - |Footer|..] == Footer
  {
    var pem := Header + Wrap(Encode(publicKeyData)) + Footer;
    assert pem[..|Header|] == Header;
    assert pem[|pem| - |Footer|..] == Footer;
    pem
  }

  /** The text between header and footer of a framed PEM string. */
  function Body(pem: string): string
    requires |pem| >= |Header| + |Footer|
  {
    pem[|Header|..|pem| - |Footer|]
  }

  /** A reader of the armour: check the frame, join the lines, decode the base64. */
  function ParsePEM(pem: string): Option<seq<byte>> {
    if |pem| >= |Header| + |Footer| && pem[..|Header|] == Header && pem[|pem| - |Footer|..] == Footer then
      Decode(Concat(SplitLines(Body(pem), LineSeparator)))
    else None
  }

  lemma {:induction false} SplitLinesPlain(line: string, sep: char)
    requires sep !in line
    ensures SplitLines(line, sep) == [line]
    decreases |line|
  {
    if |line| > 0 {
      SplitLinesPlain(line[1..], sep);
      assert [line[0]] + line[1..] == line;
    }
  }

  lemma {:induction false} SplitLinesAfter(line: string, sep: char, rest: string)
    requires sep !in line
    ensures SplitLines(line + [sep] + rest, sep) == [line] + SplitLines(rest, sep)
    decreases |line|
  {
    var s := line + [sep] + rest;
    if |line| == 0 {
      assert s == [sep] + rest;
      assert s[1..] == rest;
    } else {
      assert s[1..] == line[1..] + [sep] + rest;
      SplitLinesAfter(line[1..], sep, rest);
      assert [line[0]] + line[1..] == line;
    }
  }

  /** Splitting at the separator gives back lines that were joined with it. */
  lemma {:induction false} SplitJoin(lines: seq<string>, sep: char)
    requires |lines| > 0
    requires forall i :: 0 <= i < |lines| ==> sep !in lines[i]
    ensures SplitLines(JoinLines(lines, sep), sep) == lines
    decreases |lines|
  {
    if |lines| == 1 {
      SplitLinesPlain(lines[0], sep);
    } else {
      SplitJoin(lines[1..], sep);
      SplitLinesAfter(lines[0], sep, JoinLines(lines[1..], sep));
      assert [lines[0]] + lines[1..] == lines;
    }
  }

  /** No base64 character is a line break. */
  lemma EncodingHasNoBreaks(data: seq<byte>)
    ensures forall i :: 0 <= i < |Encode(data)| ==> Encode(data)[i] != '\r' && Encode(data)[i] != '\n'
  {
  }

  lemma ChunksHaveNoSeparator(s: string)
    requires LineSeparator !in s
    ensures forall i :: 0 <= i < |Chunks(s)| ==> LineSeparator !in Chunks(s)[i]
  {
    var lines := Chunks(s);
    forall i | 0 <= i < |lines|
      ensures LineSeparator !in lines[i]
    {
      ConcatContains(lines, i);
    }
  }

  /** Every character of a line occurs in the concatenation. */
  lemma {:induction false} ConcatContains(lines: seq<string>, i: int)
    requires 0 <= i < |lines|
    ensures forall c :: c in lines[i] ==> c in Concat(lines)
    decreases |lines|
  {
    if i > 0 {
      ConcatContains(lines[1..], i - 1);
    }
  }

  /** Between header and footer getPEM puts exactly the wrapped encoding. */
  lemma BodyIsWrap(publicKeyData: seq<byte>)
    ensures Body(GetPEM(publicKeyData)) == Wrap(Encode(publicKeyData))
  {
    var pem := GetPEM(publicKeyData);
    assert pem == Header + Wrap(Encode(publicKeyData)) + Footer;
  }

  /** Wrapping text free of line breaks can be undone by splitting at the carriage returns. */
  lemma SplitWrap(s: string)
    requires |s| > 0
    requires forall i :: 0 <= i < |s| ==> s[i] != '\r' && s[i] != '\n'
    ensures SplitLines(Wrap(s), LineSeparator) == Chunks(s)
    ensures forall i :: 0 <= i < |Chunks(s)| ==> '\r' !in Chunks(s)[i] && '\n' !in Chunks(s)[i]
  {
    var lines := Chunks(s);
    ChunksHaveNoSeparator(s);
    SplitJoin(lines, LineSeparator);
    forall i | 0 <= i < |lines|
      ensures '\n' !in lines[i]
    {
      ConcatContains(lines, i);
    }
  }

  /**
   The layout of getPEM's body: for non-empty input, splitting it at the
   carriage returns gives lines of exactly 64 characters but for a last,
   shorter or equal, one; the lines carry neither CR nor LF; joined they are
   the base64 encoding of the input, of length 4 * ceil(n / 3). Empty input
   gives an empty body.
   */
  lemma PemBodyLayout(publicKeyData: seq<byte>)
    ensures var body := Body(GetPEM(publicKeyData));
            var lines := SplitLines(body, LineSeparator);
            && (|publicKeyData| == 0 ==> body == [])
            && (|publicKeyData| > 0 ==> lines == Chunks(Encode(publicKeyData)))
            && Concat(lines) == Encode(publicKeyData)
            && |Concat(lines)| == 4 * ((|publicKeyData| + 2) / 3)
            && (forall i :: 0 <= i < |lines| - 1 ==> |lines[i]| == LineLength)
            && 0 < |lines| && |lines[|lines| - 1]| <= LineLength
            && (forall i :: 0 <= i < |lines| ==> '\r' !in lines[i] && '\n' !in lines[i])
  {
    var encoded := Encode(publicKeyData);
    BodyIsWrap(publicKeyData);
    if |publicKeyData| == 0 {
      assert SplitLines(Wrap(encoded), LineSeparator) == [[]];
    } else {
      EncodingHasNoBreaks(publicKeyData);
      SplitWrap(encoded);
    }
  }

  /** The armour can be read back: ParsePEM recovers exactly the bytes getPEM was given. */
  lemma ParseGetPEM(publicKeyData: seq<byte>)
    ensures ParsePEM(GetPEM(publicKeyData)) == Some(publicKeyData)
  {
    PemBodyLayout(publicKeyData);
    DecodeEncode(publicKeyData);
  }

  /** Different keys never share a PEM text. */
  lemma GetPEMInjective(a: seq<byte>, b: seq<byte>)
    requires GetPEM(a) == GetPEM(b)
    ensures a == b
  {
    ParseGetPEM(a);
    ParseGetPEM(b);
  }
}
