/**
 * The persisted form of the settings. The text is a sequence of sections
 * `tag[payload]` each closed by three U+200B characters; only the `MAIN`
 * section is written. The text is UTF-8 encoded and compressed, the
 * uncompressed byte length is put in front as a 4-byte little-endian
 * integer, and the whole buffer is stored as Base64 text. UTF-8, the
 * compressor and Base64 are given as functions (ByteCodecs).
 */
module SettingsFormat {
  import opened Wrappers

  newtype byte = x: int | 0 <= x < 256

  const ZeroWidthSpace: char := '\U{200B}'
  const Terminator: string := [ZeroWidthSpace, ZeroWidthSpace, ZeroWidthSpace]

  datatype Section = Section(tag: string, payload: string)

  /** The text of one section: tag[payload] and the three-character terminator. */
  function SectionText(tag: string, payload: string): (r: string)
    ensures |r| == |tag| + |payload| + 5
    ensures r[..|tag|] == tag && r[|tag|] == '[' && r[|tag| + 1..|tag| + 1 + |payload|] == payload
    ensures r[|tag| + 1 + |payload|] == ']' && r[|tag| + 2 + |payload|..] == Terminator
  {
    tag + "[" + payload + "]" + Terminator
  }

  // -----------------------------------------------------------------------
  // The section pattern (\w+)\[(.*?)\]​​​, scanned left to right

  /** \w, restricted to ASCII letters, digits and the underscore. */
  predicate IsWordChar(c: char) {
    'a' <= c <= 'z' || 'A' <= c <= 'Z' || '0' <= c <= '9' || c == '_'
  }

  /** End of the longest run of word characters starting at i (greedy \w+). */
  function WordRunEnd(s: string, i: nat): (k: nat)
    requires i <= |s|
    ensures i <= k <= |s|
    ensures forall m :: i <= m < k ==> IsWordChar(s[m])
    ensures k == |s| || !IsWordChar(s[k])
    decreases |s| - i
  {
    if i < |s| && IsWordChar(s[i]) then WordRunEnd(s, i + 1) else i
  }

  predicate TerminatorAt(s: string, j: nat) {
    j + 4 <= |s| && s[j] == ']' && s[j + 1..j + 4] == Terminator
  }

  /** The lazy (.*?) part: the first position from j on where "]" and the
      terminator follow, crossing no newline. */
  function FindClose(s: string, j: nat): (r: Option<nat>)
    ensures r.Some? ==> j <= r.value && TerminatorAt(s, r.value)
    ensures r.Some? ==> forall m :: j <= m < r.value ==> s[m] != '\n' && !TerminatorAt(s, m)
    decreases |s| - j
  {
    if TerminatorAt(s, j) then Some(j)
    else if j < |s| && s[j] != '\n' then FindClose(s, j + 1)
    else None
  }

  datatype Match = Match(section: Section, end: nat)

  /** The pattern tried at position i. */
  function MatchAt(s: string, i: nat): (r: Option<Match>)
    requires i <= |s|
    ensures r.Some? ==> i < r.value.end <= |s|
  {
    var k := WordRunEnd(s, i);
    if k == i || k == |s| || s[k] != '[' then None
    else match FindClose(s, k + 1)
      case None => None
      case Some(j) => Some(Match(Section(s[i..k], s[k + 1..j]), j + 4))
  }

  /** Regex.Matches from position i: every match, in order, none overlapping. */
  function Matches(s: string, i: nat): seq<Section>
    requires i <= |s|
    decreases |s| - i
  {
    if i == |s| then []
    else match MatchAt(s, i)
      case Some(m) => [m.section] + Matches(s, m.end)
      case None => Matches(s, i + 1)
  }

  /** A payload that the section pattern reads back whole: no newline and no
      "]" followed by the terminator. */
  predicate SafePayload(p: string) {
    (forall m :: 0 <= m < |p| ==> p[m] != '\n') &&
    (forall m :: 0 <= m < |p| ==> !TerminatorAt(p, m))
  }

  lemma {:induction false} FindCloseOfSection(tag: string, p: string, j: nat)
    requires SafePayload(p) && |tag| + 1 <= j <= |tag| + 1 + |p|
    ensures FindClose(SectionText(tag, p), j) == Some(|tag| + 1 + |p|)
    decreases |tag| + 1 + |p| - j
  {
    var s := SectionText(tag, p);
    if j < |tag| + 1 + |p| {
      PayloadCharOfSection(tag, p, j);
      FindCloseOfSection(tag, p, j + 1);
    } else {
      assert s[j + 1..j + 4] == Terminator;
    }
  }

  /** Inside the payload of a written section there is no newline and no
      closing "]" with the terminator. */
  lemma PayloadCharOfSection(tag: string, p: string, j: nat)
    requires SafePayload(p) && |tag| + 1 <= j < |tag| + 1 + |p|
    ensures var s := SectionText(tag, p); s[j] != '\n' && !TerminatorAt(s, j)
  {
    var s := SectionText(tag, p);
    var close := |tag| + 1 + |p|;
    var m := j - |tag| - 1;
    assert s[j] == p[m];
    if j + 4 <= close {
      assert s[j + 1..j + 4] == p[m + 1..m + 4];
      assert !TerminatorAt(p, m);
    } else {
      assert s[j + 1..j + 4][close - j - 1] == ']';
    }
  }

  /** The written text is read back as exactly one section with its payload. */
  lemma SectionRoundTrip(tag: string, p: string)
    requires |tag| > 0 && (forall m :: 0 <= m < |tag| ==> IsWordChar(tag[m])) && SafePayload(p)
    ensures Matches(SectionText(tag, p), 0) == [Section(tag, p)]
  {
    var s := SectionText(tag, p);
    assert s[..|tag|] == tag;
    assert WordRunEnd(s, 0) == |tag| by {
      WordRunOfTag(s, tag, 0);
    }
    FindCloseOfSection(tag, p, |tag| + 1);
    assert s[|tag| + 1..|tag| + 1 + |p|] == p;
    assert MatchAt(s, 0) == Some(Match(Section(tag, p), |s|));
  }

  lemma {:induction false} WordRunOfTag(s: string, tag: string, i: nat)
    requires |tag| < |s| && s[..|tag|] == tag && s[|tag|] == '['
    requires forall m :: 0 <= m < |tag| ==> IsWordChar(tag[m])
    requires i <= |tag|
    ensures WordRunEnd(s, i) == |tag|
    decreases |tag| - i
  {
    if i < |tag| {
      assert s[i] == tag[i];
      WordRunOfTag(s, tag, i + 1);
    }
  }

  // -----------------------------------------------------------------------
  // The tag table Load builds with Dictionary.Add

  /** One entry per section, in order; a second section with the same tag is
      the exception Dictionary.Add throws. */
  function SectionTable(sections: seq<Section>): (r: Result<map<string, string>, string>)
    ensures r.Ok? ==> forall i :: 0 <= i < |sections| ==> sections[i].tag in r.value
    decreases |sections|
  {
    if sections == [] then Ok(map[])
    else
      var last := sections[|sections| - 1];
      var prefix := SectionTable(sections[..|sections| - 1]);
      if prefix.Err? then prefix
      else if last.tag in prefix.value then Err(last.tag)
      else Ok(prefix.value[last.tag := last.payload])
  }

  /** Two sections with one tag make the table fail. */
  lemma {:induction false} DuplicateTagFails(sections: seq<Section>, i: nat, j: nat)
    requires i < j < |sections| && sections[i].tag == sections[j].tag
    ensures SectionTable(sections).Err?
    decreases |sections|
  {
    var n := |sections| - 1;
    var prefix := sections[..n];
    if j < n {
      DuplicateTagFails(prefix, i, j);
    } else {
      var t := SectionTable(prefix);
      if t.Ok? {
        assert prefix[i] == sections[i];
      }
    }
  }

  /** Distinct tags give a table holding each payload under its tag. */
  lemma {:induction false} DistinctTagsTable(sections: seq<Section>)
    requires forall i, j :: 0 <= i < j < |sections| ==> sections[i].tag != sections[j].tag
    ensures SectionTable(sections).Ok?
    ensures forall i :: 0 <= i < |sections| ==>
              SectionTable(sections).value[sections[i].tag] == sections[i].payload
    decreases |sections|
  {
    if sections != [] {
      var n := |sections| - 1;
      var prefix := sections[..n];
      assert forall i, j :: 0 <= i < j < |prefix| ==> prefix[i].tag != prefix[j].tag;
      DistinctTagsTable(prefix);
      var t := SectionTable(prefix).value;
      assert sections[n].tag !in t by {
        forall k | k in t ensures k != sections[n].tag {
          SectionTableKeys(prefix, k);
        }
      }
      forall i | 0 <= i < |sections|
        ensures SectionTable(sections).value[sections[i].tag] == sections[i].payload
      {
        if i < n {
          assert prefix[i] == sections[i];
        }
      }
    }
  }

  lemma {:induction false} SectionTableKeys(sections: seq<Section>, k: string)
    requires SectionTable(sections).Ok? && k in SectionTable(sections).value
    ensures exists i :: 0 <= i < |sections| && sections[i].tag == k
    decreases |sections|
  {
    var n := |sections| - 1;
    var prefix := sections[..n];
    if k != sections[n].tag {
      SectionTableKeys(prefix, k);
      var i :| 0 <= i < |prefix| && prefix[i].tag == k;
      assert sections[i] == prefix[i];
    }
  }

  // -----------------------------------------------------------------------
  // The 4-byte length prefix

  /** BitConverter.GetBytes(int): the value modulo 2^32, least significant byte first. */
  function LittleEndian32(n: int): (r: seq<byte>)
    ensures |r| == 4
  {
    var u := n % 0x1_0000_0000;
    var u1 := u / 256;
    var u2 := u1 / 256;
    var u3 := u2 / 256;
    [(u % 256) as byte, (u1 % 256) as byte, (u2 % 256) as byte, (u3 % 256) as byte]
  }

  /** BitConverter.ToInt32(b, 0): the first four bytes as a two's complement value. */
  function ToInt32(b: seq<byte>): (r: int)
    requires |b| >= 4
    ensures -0x8000_0000 <= r < 0x8000_0000
  {
    var u := b[0] as int + 256 * (b[1] as int + 256 * (b[2] as int + 256 * (b[3] as int)));
    if u >= 0x8000_0000 then u - 0x1_0000_0000 else u
  }

  /** Every non-negative int survives the length prefix. */
  lemma Int32RoundTrip(n: int)
    requires 0 <= n < 0x8000_0000
    ensures ToInt32(LittleEndian32(n)) == n
  {
    var u1 := n / 256;
    var u2 := u1 / 256;
    var u3 := u2 / 256;
    assert n == u1 * 256 + n % 256;
    assert u1 == u2 * 256 + u1 % 256;
    assert u2 == u3 * 256 + u2 % 256;
    assert u3 < 256;
  }

  /** The compressed buffer: the length prefix, then the compressor output. */
  function Frame(length: int, compressed: seq<byte>): (r: seq<byte>)
    ensures |r| == |compressed| + 4 && r[..4] == LittleEndian32(length) && r[4..] == compressed
    ensures 0 <= length < 0x8000_0000 ==> ToInt32(r) == length
  {
    Int32RoundTrip(if 0 <= length < 0x8000_0000 then length else 0);
    LittleEndian32(length) + compressed
  }

  /** The host functions the store relies on. */
  datatype ByteCodecs = ByteCodecs(
    utf8Encode: string -> seq<byte>,
    utf8Decode: seq<byte> -> string,
    gzip: seq<byte> -> seq<byte>,
    gunzip: seq<byte> -> Option<seq<byte>>,
    toBase64: seq<byte> -> string,
    fromBase64: string -> Option<seq<byte>>)

  /** char.IsWhiteSpace */
  predicate IsWhiteSpace(c: char) {
    c == ' ' || '\t' <= c <= '\r' || c == '\U{85}' || c == '\U{A0}' || c == '\U{1680}'
    || '\U{2000}' <= c <= '\U{200A}' || c == '\U{2028}' || c == '\U{2029}' || c == '\U{202F}'
    || c == '\U{205F}' || c == '\U{3000}'
  }

  /** string.IsNullOrWhiteSpace for a non-null string. */
  predicate IsBlank(s: string) {
    forall i :: 0 <= i < |s| ==> IsWhiteSpace(s[i])
  }

  /** What the round trip needs of the host functions: each decoder inverts
      its encoder and Base64 text of a non-empty buffer is not blank. */
  ghost predicate Inverse(c: ByteCodecs) {
    && (forall t :: c.utf8Decode(c.utf8Encode(t)) == t)
    && (forall b :: c.gunzip(c.gzip(b)) == Some(b))
    && (forall b :: c.fromBase64(c.toBase64(b)) == Some(b))
    && (forall b :: |b| > 0 ==> !IsBlank(c.toBase64(b)))
  }

  /** CompressString as a function. */
  function Compressed(c: ByteCodecs, text: string): string {
    var raw := c.utf8Encode(text);
    c.toBase64(Frame(|raw|, c.gzip(raw)))
  }

  /** CompressString: UTF-8 bytes, compressed, copied behind the 4-byte prefix,
      as Base64. */
  method CompressString(c: ByteCodecs, text: string) returns (r: string)
    ensures r == Compressed(c, text)
  {
    var buffer := c.utf8Encode(text);
    var compressedData := c.gzip(buffer);
    var gZipBuffer := new byte[|compressedData| + 4];
    for i := 0 to |compressedData|
      invariant forall k :: 0 <= k < i ==> gZipBuffer[4 + k] == compressedData[k]
    {
      gZipBuffer[4 + i] := compressedData[i];
    }
    var lengthBytes := LittleEndian32(|buffer|);
    for i := 0 to 4
      invariant forall k :: 0 <= k < i ==> gZipBuffer[k] == lengthBytes[k]
      invariant forall k :: 0 <= k < |compressedData| ==> gZipBuffer[4 + k] == compressedData[k]
    {
      gZipBuffer[i] := lengthBytes[i];
    }
    assert gZipBuffer[..] == Frame(|buffer|, compressedData);
    r := c.toBase64(gZipBuffer[..]);
  }

  /** The exceptions DecompressString can raise. */
  datatype DecodeError = NotBase64 | TooShort | NegativeLength | CorruptStream

  /** The length-`n` buffer after one read of `out`: what fits, then zeros. */
  function Fill(out: seq<byte>, n: nat): (r: seq<byte>)
    ensures |r| == n
    ensures forall k :: 0 <= k < n ==> r[k] == if k < |out| then out[k] else 0
  {
    if n <= |out| then out[..n] else out + seq(n - |out|, _ => 0)
  }

  /** DecompressString as a function. */
  function Decompressed(c: ByteCodecs, text: string): Result<string, DecodeError> {
    match c.fromBase64(text)
    case None => Err(NotBase64)
    case Some(buf) =>
      if |buf| < 4 then Err(TooShort)
      else
        var dataLength := ToInt32(buf);
        if dataLength < 0 then Err(NegativeLength)
        else match c.gunzip(buf[4..])
          case None => Err(CorruptStream)
          case Some(out) => Ok(c.utf8Decode(Fill(out, dataLength)))
  }

  /** DecompressString: read the prefix as the output length and decode the
      bytes behind it into a buffer of that length. */
  method DecompressString(c: ByteCodecs, compressedText: string) returns (r: Result<string, DecodeError>)
    ensures r == Decompressed(c, compressedText)
  {
    var decoded := c.fromBase64(compressedText);
    if decoded.None? {
      return Err(NotBase64);
    }
    var gZipBuffer := decoded.value;
    if |gZipBuffer| < 4 {
      return Err(TooShort);
    }
    var dataLength := ToInt32(gZipBuffer);
    var stream := gZipBuffer[4..];
    if dataLength < 0 {
      return Err(NegativeLength);
    }
    var buffer := new byte[dataLength](_ => 0);
    var inflated := c.gunzip(stream);
    if inflated.None? {
      return Err(CorruptStream);
    }
    var out := inflated.value;
    var count := if dataLength <= |out| then dataLength else |out|;
    for i := 0 to count
      invariant forall k :: 0 <= k < i ==> buffer[k] == out[k]
      invariant forall k :: i <= k < dataLength ==> buffer[k] == 0
    {
      buffer[i] := out[i];
    }
    assert buffer[..] == Fill(out, dataLength);
    r := Ok(c.utf8Decode(buffer[..]));
  }

  /** The framing round-trips whenever the codecs invert each other and the
      UTF-8 bytes of the text fit an int-indexed array. */
  lemma CompressionRoundTrip(c: ByteCodecs, text: string)
    requires Inverse(c) && |c.utf8Encode(text)| < 0x8000_0000
    ensures Decompressed(c, Compressed(c, text)) == Ok(text)
    ensures !IsBlank(Compressed(c, text))
  {
    var raw := c.utf8Encode(text);
    var buf := Frame(|raw|, c.gzip(raw));
    Int32RoundTrip(|raw|);
    assert buf[..4] == LittleEndian32(|raw|);
    assert ToInt32(buf) == ToInt32(buf[..4]);
    assert Fill(raw, |raw|) == raw;
  }
}
