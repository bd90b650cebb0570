/**
 * `AppLoger`: formats a log line and prints it in chunks of at most 10240 UTF-8 bytes.
 * Printing is replaced by returning the chunks; the clock reading is a parameter.
 */
module AppLogger {
  import opened Wrappers

  newtype byte = x: int | 0 <= x < 256

  /** `chunkBytes`. */
  const ChunkBytes := 10240

  datatype LogType = Debug | Network | Persistence | Error

  /** `rawValue`: the case name. */
  function RawValue(t: LogType): string {
    match t
    case Debug => "debug"
    case Network => "network"
    case Persistence => "persistence"
    case Error => "error"
  }

  /** `emoji`: speech balloon, globe, floppy disk, cross mark. */
  function Emoji(t: LogType): string {
    match t
    case Debug => "\U{1F4AC}"
    case Network => "\U{1F310}"
    case Persistence => "\U{1F4BE}"
    case Error => "\U{274C}"
  }

  /**
   * `uppercased()` on the ASCII letters that the raw values consist of: no lower-case
   * letter is left, each one becomes the capital at the same place in the alphabet, and
   * every other character is kept.
   */
  function Uppercased(s: string): (u: string)
    ensures |u| == |s|
    ensures forall i :: 0 <= i < |u| ==> !('a' <= u[i] <= 'z')
    ensures forall i :: 0 <= i < |s| && 'a' <= s[i] <= 'z' ==>
      'A' <= u[i] <= 'Z' && u[i] as int - 'A' as int == s[i] as int - 'a' as int
    ensures forall i :: 0 <= i < |s| && !('a' <= s[i] <= 'z') ==> u[i] == s[i]
  {
    seq(|s|, i requires 0 <= i < |s| => if 'a' <= s[i] <= 'z' then (s[i] as int - 32) as char else s[i])
  }

  /** Upper-casing what is already upper-cased changes nothing. */
  lemma UppercasedIdempotent(s: string)
    ensures Uppercased(Uppercased(s)) == Uppercased(s)
  {
  }

  /** The type names as the log prints them. */
  lemma UppercasedRawValues(t: LogType)
    ensures t == Debug ==> Uppercased(RawValue(t)) == "DEBUG"
    ensures t == Network ==> Uppercased(RawValue(t)) == "NETWORK"
    ensures t == Persistence ==> Uppercased(RawValue(t)) == "PERSISTENCE"
    ensures t == Error ==> Uppercased(RawValue(t)) == "ERROR"
  {
  }

  /** The prefix: emoji, a space, the upper-cased type name in brackets. */
  function Prefix(t: LogType): string {
    Emoji(t) + " [" + Uppercased(RawValue(t)) + "]"
  }

  lemma PrefixOfPersistence()
    ensures Prefix(Persistence) == "\U{1F4BE} [PERSISTENCE]"
  {
  }

  /** The formatted line: `time prefix title: message`, or `time prefix title` without a message. */
  function Format(time: string, t: LogType, title: string, message: Option<string>): (line: string)
    ensures var head := time + " " + Prefix(t) + " " + title;
      && |line| >= |head| && line[..|head|] == head
      && (message.None? ==> line == head)
      && (message.Some? ==> line[|head|..] == ": " + message.value)
  {
    match message
    case Some(m) => time + " " + Prefix(t) + " " + title + ": " + m
    case None => time + " " + Prefix(t) + " " + title
  }

  /** A message only adds `": "` and its text after the line it would have had without one. */
  lemma FormatWithMessage(time: string, t: LogType, title: string, m: string)
    ensures Format(time, t, title, Some(m)) == Format(time, t, title, None) + ": " + m
    ensures |Format(time, t, title, None)| > |time| + |title|
  {
  }

  /**
   * The scalar value a UTF-8 sequence of one to four bytes denotes: the payload bits of
   * the lead byte followed by six bits from each continuation byte.
   */
  function DecodeChar(bs: seq<byte>): int
    requires 1 <= |bs| <= 4
  {
    if |bs| == 1 then bs[0] as int
    else if |bs| == 2 then (bs[0] as int - 0xC0) * 0x40 + (bs[1] as int - 0x80)
    else if |bs| == 3 then
      ((bs[0] as int - 0xE0) * 0x40 + (bs[1] as int - 0x80)) * 0x40 + (bs[2] as int - 0x80)
    else
      (((bs[0] as int - 0xF0) * 0x40 + (bs[1] as int - 0x80)) * 0x40 + (bs[2] as int - 0x80)) * 0x40
        + (bs[3] as int - 0x80)
  }

  /**
   * The UTF-8 encoding of one Unicode scalar value: the shortest form, with the lead byte
   * announcing the length and every continuation byte in 0x80..0xBF, which decodes back
   * to the value.
   */
  function Utf8Char(c: char): (bs: seq<byte>)
    ensures 1 <= |bs| <= 4
    ensures c as int < 0x80 ==> |bs| == 1 && bs[0] < 0x80
    ensures 0x80 <= c as int < 0x800 ==> |bs| == 2 && 0xC0 <= bs[0] < 0xE0
    ensures 0x800 <= c as int < 0x10000 ==> |bs| == 3 && 0xE0 <= bs[0] < 0xF0
    ensures 0x10000 <= c as int ==> |bs| == 4 && 0xF0 <= bs[0] < 0xF8
    ensures forall k :: 1 <= k < |bs| ==> 0x80 <= bs[k] <= 0xBF
    ensures DecodeChar(bs) == c as int
  {
    var v := c as int;
    if v < 0x80 then [v as byte]
    else if v < 0x800 then Utf8Two(v)
    else if v < 0x10000 then Utf8Three(v)
    else Utf8Four(v)
  }

  /** The continuation byte carrying the six bits of `v` from bit `6 * k` up. */
  function Continuation(v: nat, k: nat): (b: byte)
    ensures 0x80 <= b <= 0xBF
  {
    var unit := if k == 0 then 1 else if k == 1 then 0x40 else 0x1000;
    (0x80 + (v / unit) % 0x40) as byte
  }

  function Utf8Two(v: nat): (bs: seq<byte>)
    requires 0x80 <= v < 0x800
    ensures |bs| == 2 && 0xC0 <= bs[0] < 0xE0 && 0x80 <= bs[1] <= 0xBF
    ensures DecodeChar(bs) == v
  {
    [(0xC0 + v / 0x40) as byte, Continuation(v, 0)]
  }

  function Utf8Three(v: nat): (bs: seq<byte>)
    requires 0x800 <= v < 0x10000
    ensures |bs| == 3 && 0xE0 <= bs[0] < 0xF0
    ensures forall k :: 1 <= k < 3 ==> 0x80 <= bs[k] <= 0xBF
    ensures DecodeChar(bs) == v
  {
    var hi := v / 0x40;
    assert hi / 0x40 == v / 0x1000;
    [(0xE0 + v / 0x1000) as byte, Continuation(v, 1), Continuation(v, 0)]
  }

  function Utf8Four(v: nat): (bs: seq<byte>)
    requires 0x10000 <= v < 0x110000
    ensures |bs| == 4 && 0xF0 <= bs[0] < 0xF8
    ensures forall k :: 1 <= k < 4 ==> 0x80 <= bs[k] <= 0xBF
    ensures DecodeChar(bs) == v
  {
    var hi := v / 0x40;
    assert hi / 0x40 == v / 0x1000;
    assert (v / 0x1000) / 0x40 == v / 0x40000;
    [(0xF0 + v / 0x40000) as byte, Continuation(v, 2), Continuation(v, 1), Continuation(v, 0)]
  }

  /** Distinct characters have distinct encodings. */
  lemma Utf8CharInjective(a: char, b: char)
    ensures Utf8Char(a) == Utf8Char(b) ==> a == b
  {
  }

  /** `message.utf8`. */
  function Utf8(s: string): (bs: seq<byte>)
    ensures |bs| >= |s|
    ensures |bs| == 0 <==> |s| == 0
  {
    if s == [] then [] else Utf8(s[..|s| - 1]) + Utf8Char(s[|s| - 1])
  }

  /** The encoding of a concatenation is the concatenation of the encodings. */
  lemma {:induction false} Utf8Append(s: string, t: string)
    ensures Utf8(s + t) == Utf8(s) + Utf8(t)
    decreases |t|
  {
    if t == [] {
      assert s + t == s;
    } else {
      var u := t[..|t| - 1];
      assert (s + t)[..|s + t| - 1] == s + u;
      assert (s + t)[|s + t| - 1] == t[|t| - 1];
      Utf8Append(s, u);
    }
  }

  /** The encoding of a string is the encodings of its characters, first to last. */
  lemma Utf8Cons(c: char, s: string)
    ensures Utf8([c] + s) == Utf8Char(c) + Utf8(s)
  {
    Utf8Append([c], s);
    assert [c][..0] == [];
  }

  /** The chunks laid end to end. */
  function Concat(chunks: seq<seq<byte>>): seq<byte> {
    if chunks == [] then [] else Concat(chunks[..|chunks| - 1]) + chunks[|chunks| - 1]
  }

  lemma ConcatSnoc(chunks: seq<seq<byte>>, c: seq<byte>)
    ensures Concat(chunks + [c]) == Concat(chunks) + c
  {
    assert (chunks + [c])[..|chunks|] == chunks;
  }

  /** Each chunk non-empty and at most `ChunkBytes` long; all but the last exactly that long. */
  ghost predicate WellChunked(chunks: seq<seq<byte>>) {
    && (forall k :: 0 <= k < |chunks| ==> 0 < |chunks[k]| <= ChunkBytes)
    && (forall k :: 0 <= k < |chunks| - 1 ==> |chunks[k]| == ChunkBytes)
  }

  /**
   * `printInChunks`: the message's UTF-8 bytes cut into consecutive slices of
   * `ChunkBytes`, the last one shorter if need be. An empty message yields no chunk.
   */
  method PrintInChunks(message: string) returns (chunks: seq<seq<byte>>)
    ensures Concat(chunks) == Utf8(message)
    ensures WellChunked(chunks)
    ensures chunks == [] <==> message == ""
  {
    var bytes := Utf8(message);
    var start := 0;
    chunks := [];
    while start < |bytes|
      invariant 0 <= start <= |bytes|
      invariant Concat(chunks) == bytes[..start]
      invariant forall k :: 0 <= k < |chunks| ==> 0 < |chunks[k]| <= ChunkBytes
      invariant start < |bytes| ==> forall k :: 0 <= k < |chunks| ==> |chunks[k]| == ChunkBytes
      invariant forall k :: 0 <= k < |chunks| - 1 ==> |chunks[k]| == ChunkBytes
      invariant chunks == [] <==> start == 0
      decreases |bytes| - start
    {
      var end := if start + ChunkBytes <= |bytes| then start + ChunkBytes else |bytes|;
      ConcatSnoc(chunks, bytes[start..end]);
      assert bytes[..end] == bytes[..start] + bytes[start..end];
      chunks := chunks + [bytes[start..end]];
      start := end;
    }
    assert bytes[..start] == bytes;
  }

  /** `log`: nothing when `shouldPrint` is false, else the formatted line in chunks. */
  method Log(message: Option<string>, t: LogType, title: string, shouldPrint: bool, time: string)
    returns (chunks: seq<seq<byte>>)
    ensures !shouldPrint ==> chunks == []
    ensures shouldPrint ==> Concat(chunks) == Utf8(Format(time, t, title, message)) && chunks != []
    ensures WellChunked(chunks)
  {
    if !shouldPrint {
      return [];
    }
    var formatted := Format(time, t, title, message);
    assert |formatted| > 0 by {
      FormatWithMessage(time, t, title, "");
    }
    chunks := PrintInChunks(formatted);
  }
}
