/**
 One JSON-RPC message per line (mcp/stdio/hermes-acp-protocol.js and the reader in mcp/stdio/hermes-session.js). What a
 line means is a parameter: `read` trims it and parses it, and gives nothing for a blank or malformed one.
 */
module JsonLines {
  import opened Common

  const NL: char := '\n'

  /** Where the first line break is; the length of the text if there is none. */
  function FirstBreak(s: string): (i: nat)
    ensures i <= |s| && (i < |s| ==> s[i] == NL) && NL !in s[..i]
  {
    if s == "" || s[0] == NL then 0 else
    var i := 1 + FirstBreak(s[1..]);
    assert s[..i] == [s[0]] + s[1..][..i-1];
    i
  }

  /** The text split at line breaks; the last piece has no terminator yet. */
  function Split(s: string): (lines: seq<string>)
    ensures lines != []
  {
    var i := FirstBreak(s);
    if i == |s| then [s] else [s[..i]] + Split(s[i+1..])
  }

  function Messages<M>(lines: seq<string>, read: string -> Option<M>): seq<M> {
    if lines == [] then [] else
    Messages(lines[..|lines|-1], read) + match read(lines[|lines|-1]) case Some(m) => [m] case None => []
  }

  datatype Parsed<M> = Parsed(messages: seq<M>, remainder: string)

  function Parse<M>(s: string, read: string -> Option<M>): Parsed<M> {
    var lines := Split(s);
    Parsed(Messages(lines[..|lines|-1], read), lines[|lines|-1])
  }

  /** `parseMessage`. */
  method ParseMessage<M>(buffer: string, read: string -> Option<M>) returns (messages: seq<M>, remainder: string)
    ensures Parsed(messages, remainder) == Parse(buffer, read)
  {
    var lines := Split(buffer);
    remainder := lines[|lines|-1];
    lines := lines[..|lines|-1];
    messages := [];
    for i := 0 to |lines|
      invariant messages == Messages(lines[..i], read)
    {
      assert lines[..i+1][..i] == lines[..i];
      match read(lines[i]) {
        case Some(m) => messages := messages + [m];
        case None =>
      }
    }
    assert lines[..|lines|] == lines;
  }

  // ---------------------------------------------------------------------------------------------
  // Cutting the stream

  lemma {:induction false} BreakAppend(a: string, b: string)
    ensures FirstBreak(a + b) == if FirstBreak(a) < |a| then FirstBreak(a) else |a| + FirstBreak(b)
  {
    if a == "" {
      assert a + b == b;
    } else if a[0] != NL {
      assert (a + b)[1..] == a[1..] + b;
      BreakAppend(a[1..], b);
    }
  }

  /** The remainder of what came first is the beginning of the next line. */
  lemma {:induction false} SplitAppend(a: string, b: string)
    ensures var lines := Split(a);
      Split(a + b) == lines[..|lines|-1] + Split(lines[|lines|-1] + b)
    decreases |a|
  {
    var i := FirstBreak(a);
    var lines := Split(a);
    BreakAppend(a, b);
    if i == |a| {
      assert lines[..0] + Split(a + b) == Split(a + b);
    } else {
      var rest := Split(a[i+1..]);
      SplitAppend(a[i+1..], b);
      DropPast(a, b, i + 1);
      assert (a + b)[..i] == a[..i];
      ConsInit(a[..i], rest);
      Associate([a[..i]], rest[..|rest|-1], Split(rest[|rest|-1] + b));
    }
  }

  lemma {:induction false} DropPast(a: string, b: string, k: nat)
    requires k <= |a|
    ensures (a + b)[k..] == a[k..] + b
  {
  }

  lemma {:induction false} ConsInit<T>(h: T, rest: seq<T>)
    requires rest != []
    ensures var s := [h] + rest; s[|s|-1] == rest[|rest|-1] && s[..|s|-1] == [h] + rest[..|rest|-1]
  {
  }

  lemma {:induction false} MessagesAppend<M>(a: seq<string>, b: seq<string>, read: string -> Option<M>)
    ensures Messages(a + b, read) == Messages(a, read) + Messages(b, read)
    decreases |b|
  {
    if b == [] {
      assert a + b == a;
    } else {
      assert (a + b)[..|a + b|-1] == a + b[..|b|-1];
      MessagesAppend(a, b[..|b|-1], read);
    }
  }

  /** Parsing what came first and then the remainder with the next chunk is parsing both at once. */
  lemma {:induction false} ParseAppend<M>(a: string, b: string, read: string -> Option<M>)
    ensures var first := Parse(a, read);
      var next := Parse(first.remainder + b, read);
      Parse(a + b, read) == Parsed(first.messages + next.messages, next.remainder)
  {
    SplitAppend(a, b);
    var x := Split(a);
    var y := Split(x[|x|-1] + b);
    var front := x[..|x|-1];
    assert (front + y)[..|front + y|-1] == front + y[..|y|-1];
    MessagesAppend(front, y[..|y|-1], read);
  }

  /** `_onStdout`, chunk by chunk: the messages dispatched and the read buffer. */
  function Receive<M>(chunks: seq<string>, read: string -> Option<M>): Parsed<M> {
    if chunks == [] then Parsed([], "") else
    var before := Receive(chunks[..|chunks|-1], read);
    var now := Parse(before.remainder + chunks[|chunks|-1], read);
    Parsed(before.messages + now.messages, now.remainder)
  }

  /** However the text is cut, the messages and the remainder are those of the whole. */
  lemma {:induction false} CutsDoNotMatter<M>(chunks: seq<string>, read: string -> Option<M>)
    ensures Receive(chunks, read) == Parse(Flatten(chunks), read)
  {
    if chunks != [] {
      var n := |chunks| - 1;
      CutsDoNotMatter(chunks[..n], read);
      ParseAppend(Flatten(chunks[..n]), chunks[n], read);
    }
  }

  // ---------------------------------------------------------------------------------------------
  // Sending and receiving

  /** An encoder whose lines hold no line break and read back as what was encoded. */
  ghost predicate Inverse<M(!new)>(write: M -> string, read: string -> Option<M>) {
    forall m :: NL !in write(m) && read(write(m)) == Some(m)
  }

  /** The frames as they go over the pipe, each with its terminator. */
  function Sent<M>(frames: seq<M>, write: M -> string): string {
    if frames == [] then "" else Sent(frames[..|frames|-1], write) + (write(frames[|frames|-1]) + "\n")
  }

  lemma {:induction false} NoBreak(s: string)
    requires NL !in s
    ensures FirstBreak(s) == |s|
  {
  }

  lemma {:induction false} ParseFrame<M>(line: string, read: string -> Option<M>)
    requires NL !in line
    ensures Parse(line + [NL], read) == Parsed(match read(line) case Some(m) => [m] case None => [], "")
  {
    var s := line + [NL];
    NoBreak(line);
    BreakAppend(line, [NL]);
    assert s[..|line|] == line && s[|line|+1..] == "";
    assert Split("") == [""];
    assert Split(s) == [line] + [""];
    ConsInit(line, [""]);
    assert [""][..0] == [] && [line] + [] == [line] && [line][..0] == [];
    assert Messages([line], read) == [] + match read(line) case Some(m) => [m] case None => [];
  }

  lemma {:induction false} SentParses<M(!new)>(frames: seq<M>, write: M -> string, read: string -> Option<M>)
    requires Inverse(write, read)
    ensures Parse(Sent(frames, write), read) == Parsed(frames, "")
  {
    if frames == [] {
      assert Split("") == [""];
    } else {
      var n := |frames| - 1;
      SentParses(frames[..n], write, read);
      var line := write(frames[n]);
      ParseAppend(Sent(frames[..n], write), line + [NL], read);
      ParseFrame(line, read);
      assert [NL] == "\n";
      assert "" + (line + [NL]) == line + [NL];
      InitLast(frames);
    }
  }

  /** Whatever frames are sent and however the pipe cuts them, exactly those frames are received, in order, and nothing is left over. */
  lemma {:induction false} FramesArrive<M(!new)>(frames: seq<M>, chunks: seq<string>, write: M -> string, read: string -> Option<M>)
    requires Inverse(write, read) && Flatten(chunks) == Sent(frames, write)
    ensures Receive(chunks, read) == Parsed(frames, "")
  {
    CutsDoNotMatter(chunks, read);
    SentParses(frames, write, read);
  }

  // ---------------------------------------------------------------------------------------------
  // Bytes

  /**
   How many bytes the character that starts with this byte takes; 0 for a byte that starts none. (UTF-8, section 3 of
   RFC 3629.)
   */
  function Takes(b: nat): nat {
    if b < 0x80 then 1 else if b < 0xC0 then 0 else if b < 0xE0 then 2 else if b < 0xF0 then 3 else if b < 0xF8 then 4 else 0
  }

  predicate Continues(b: nat) {
    0x80 <= b < 0xC0
  }

  /** A character, known by its bytes, or the replacement of bytes that are no character. */
  datatype Glyph = Glyph(bytes: seq<nat>) | Replacement

  predicate Whole(bytes: seq<nat>) {
    && bytes != [] && Takes(bytes[0]) > 0 && Takes(bytes[0]) <= |bytes|
    && forall i :: 1 <= i < Takes(bytes[0]) ==> Continues(bytes[i])
  }

  /** Decoding one chunk on its own, as `chunk.toString()` does. */
  function Decode(bytes: seq<nat>): seq<Glyph> {
    if bytes == [] then [] else
    if Whole(bytes) then [Glyph(bytes[..Takes(bytes[0])])] + Decode(bytes[Takes(bytes[0])..])
    else [Replacement] + Decode(bytes[1..])
  }

  /** The bytes are whole characters. */
  predicate Clean(bytes: seq<nat>) {
    bytes == [] || (Whole(bytes) && Clean(bytes[Takes(bytes[0])..]))
  }

  lemma {:induction false} CleanDecodes(bytes: seq<nat>)
    ensures Clean(bytes) <==> Replacement !in Decode(bytes)
  {
    if bytes != [] {
      var n := if Whole(bytes) then Takes(bytes[0]) else 1;
      CleanDecodes(bytes[n..]);
    }
  }

  lemma {:induction false} DecodeAppend(a: seq<nat>, b: seq<nat>)
    requires Clean(a)
    ensures Decode(a + b) == Decode(a) + Decode(b) && Clean(a + b) == Clean(b)
    decreases |a|
  {
    if a == [] {
      assert a + b == b;
    } else {
      var n := Takes(a[0]);
      assert (a + b)[n..] == a[n..] + b && (a + b)[..n] == a[..n];
      DecodeAppend(a[n..], b);
      assert Whole(a + b);
      Associate([Glyph(a[..n])], Decode(a[n..]), Decode(b));
    }
  }

  /** Two chunks of a clean stream decode to what the stream says if and only if the cut is not inside a character. */
  lemma {:induction false} CutKeepsCharactersIff(a: seq<nat>, b: seq<nat>)
    requires Clean(a + b)
    ensures Decode(a) + Decode(b) == Decode(a + b) <==> Clean(a)
  {
    if Clean(a) {
      DecodeAppend(a, b);
    } else {
      CleanDecodes(a);
      CleanDecodes(a + b);
      var i :| 0 <= i < |Decode(a)| && Decode(a)[i] == Replacement;
      assert (Decode(a) + Decode(b))[i] == Replacement;
    }
  }

  /** A character of Unicode as bytes (UTF-8, section 3 of RFC 3629). */
  function Utf8(c: nat): seq<nat>
    requires c < 0x110000
  {
    if c < 0x80 then [c]
    else if c < 0x800 then [0xC0 + c / 64, 0x80 + c % 64]
    else if c < 0x10000 then [0xE0 + c / 4096, 0x80 + c / 64 % 64, 0x80 + c % 64]
    else [0xF0 + c / 262144, 0x80 + c / 4096 % 64, 0x80 + c / 64 % 64, 0x80 + c % 64]
  }

  function Encoded(cs: seq<nat>): seq<nat>
    requires forall i :: 0 <= i < |cs| ==> cs[i] < 0x110000
  {
    if cs == [] then [] else Utf8(cs[0]) + Encoded(cs[1..])
  }

  lemma {:induction false} LeadByte(c: nat)
    requires c < 0x110000
    ensures Takes(Utf8(c)[0]) == |Utf8(c)|
  {
  }

  lemma {:induction false} OneCharacter(c: nat, rest: seq<nat>)
    requires c < 0x110000
    ensures var s := Utf8(c) + rest; Whole(s) && Takes(s[0]) == |Utf8(c)| && s[..|Utf8(c)|] == Utf8(c) && s[|Utf8(c)|..] == rest
  {
    LeadByte(c);
    var s := Utf8(c) + rest;
    assert s[0] == Utf8(c)[0];
    forall i | 1 <= i < |Utf8(c)| ensures Continues(s[i]) { assert s[i] == Utf8(c)[i]; }
  }

  /** Text that is encoded and read whole comes back character by character. */
  lemma {:induction false} EncodedTextDecodes(cs: seq<nat>)
    requires forall i :: 0 <= i < |cs| ==> cs[i] < 0x110000
    ensures Clean(Encoded(cs)) && |Decode(Encoded(cs))| == |cs|
    ensures forall i :: 0 <= i < |cs| ==> Decode(Encoded(cs))[i] == Glyph(Utf8(cs[i]))
  {
    if cs != [] {
      OneCharacter(cs[0], Encoded(cs[1..]));
      EncodedTextDecodes(cs[1..]);
    }
  }

  function DecodeEach(chunks: seq<seq<nat>>): seq<Glyph> {
    if chunks == [] then [] else DecodeEach(chunks[..|chunks|-1]) + Decode(chunks[|chunks|-1])
  }

  /** No chunk ends inside a character. */
  predicate CutsBetween(chunks: seq<seq<nat>>) {
    forall n :: 0 <= n <= |chunks| ==> Clean(Flatten(chunks[..n]))
  }

  lemma {:induction false} DecodeEachClean(chunks: seq<seq<nat>>)
    requires CutsBetween(chunks)
    ensures DecodeEach(chunks) == Decode(Flatten(chunks))
  {
    if chunks != [] {
      var n := |chunks| - 1;
      forall k | 0 <= k <= n ensures Clean(Flatten(chunks[..n][..k])) {
        assert chunks[..n][..k] == chunks[..k];
      }
      DecodeEachClean(chunks[..n]);
      assert chunks[..n][..n] == chunks[..n];
      DecodeAppend(Flatten(chunks[..n]), chunks[n]);
    }
  }

  lemma {:induction false} DecodedClean(chunks: seq<seq<nat>>, n: nat)
    requires n <= |chunks| && Replacement !in DecodeEach(chunks)
    ensures Clean(Flatten(chunks[..n])) && DecodeEach(chunks[..n]) == Decode(Flatten(chunks[..n]))
    decreases |chunks|
  {
    if n < |chunks| {
      var front := chunks[..|chunks|-1];
      assert forall g :: g in DecodeEach(front) ==> g in DecodeEach(chunks);
      DecodedClean(front, n);
      assert front[..n] == chunks[..n];
    } else if n > 0 {
      var front := chunks[..n-1];
      assert chunks[..n] == chunks;
      assert forall g :: g in DecodeEach(front) ==> g in DecodeEach(chunks);
      assert forall g :: g in Decode(chunks[n-1]) ==> g in DecodeEach(chunks);
      DecodedClean(front, n - 1);
      assert front[..n-1] == front;
      CleanDecodes(chunks[n-1]);
      DecodeAppend(Flatten(front), chunks[n-1]);
    }
  }

  /**
   Decoding chunk by chunk gives the text of a clean stream if and only if no chunk ends inside a character: only then
   does what `_onStdout` reads not depend on the cuts.
   */
  lemma {:induction false} DecodingIgnoresCutsIff(chunks: seq<seq<nat>>)
    requires Clean(Flatten(chunks))
    ensures DecodeEach(chunks) == Decode(Flatten(chunks)) <==> CutsBetween(chunks)
  {
    if CutsBetween(chunks) {
      DecodeEachClean(chunks);
    } else if DecodeEach(chunks) == Decode(Flatten(chunks)) {
      CleanDecodes(Flatten(chunks));
      forall n | 0 <= n <= |chunks| ensures Clean(Flatten(chunks[..n])) { DecodedClean(chunks, n); }
    }
  }

  /** A two-byte character that arrives as two chunks is read as two replacements. */
  lemma {:induction false} SplitCharacterIsLost(lead: nat, last: nat)
    requires 0xC2 <= lead < 0xE0 && Continues(last)
    ensures Clean([lead, last]) && Decode([lead, last]) == [Glyph([lead, last])]
    ensures Flatten([[lead], [last]]) == [lead, last] && DecodeEach([[lead], [last]]) == [Replacement, Replacement]
  {
    var both, chunks := [lead, last], [[lead], [last]];
    assert both[..2] == both && both[2..] == [];
    assert Decode([lead]) == [Replacement] && Decode([last]) == [Replacement] by {
      assert [lead][1..] == [] && [last][1..] == [];
    }
    var first := [[lead]];
    assert chunks[..1] == first && first[..0] == [];
    assert Flatten(first) == [] + [lead] && DecodeEach(first) == [] + Decode([lead]);
    assert Flatten(chunks) == Flatten(first) + [last] && DecodeEach(chunks) == DecodeEach(first) + Decode([last]);
    assert Whole(both) && Decode(both) == [Glyph(both)] + [];
  }
}
