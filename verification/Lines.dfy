/** Newline reassembly: a byte stream cut into arbitrary chunks gives back
    exactly the lines of the stream. */
module Lines {
  import opened Options
  import opened Texts

  newtype Byte = b: int | 0 <= b < 256

  type Bytes = seq<Byte>

  const NEWLINE: Byte := 10

  /** Position of the first newline, or |s|. */
  function FirstNewline(s: Bytes): (i: nat)
    ensures i <= |s|
  {
    if s == [] || s[0] == NEWLINE then 0 else 1 + FirstNewline(s[1..])
  }

  predicate Whole(s: Bytes) {
    NEWLINE !in s
  }

  predicate AllWhole(lines: seq<Bytes>) {
    forall k :: 0 <= k < |lines| ==> Whole(lines[k])
  }

  lemma {:induction false} FirstNewlineAt(s: Bytes)
    ensures var i := FirstNewline(s);
      Whole(s[..i]) && (i < |s| ==> s == s[..i] + [NEWLINE] + s[i + 1..]) && (i == |s| <==> Whole(s))
  {
    if s != [] && s[0] != NEWLINE {
      var i := FirstNewline(s);
      FirstNewlineAt(s[1..]);
      assert s[..i] == [s[0]] + s[1..][..i - 1];
      assert i < |s| ==> s[i] == NEWLINE;
      assert s == [s[0]] + s[1..];
    }
  }

  lemma {:induction false} FirstNewlineIs(line: Bytes, after: Bytes)
    requires Whole(line)
    ensures FirstNewline(line + [NEWLINE] + after) == |line|
  {
    var s := line + [NEWLINE] + after;
    if line != [] {
      assert s[1..] == line[1..] + [NEWLINE] + after;
      FirstNewlineIs(line[1..], after);
    }
  }

  datatype Split = Split(lines: seq<Bytes>, rest: Bytes)

  /** The newline-terminated lines of `s`, and what follows the last newline. */
  function Cut(s: Bytes): Split {
    var i := FirstNewline(s);
    if i == |s| then Split([], s)
    else var more := Cut(s[i + 1..]); Split([s[..i]] + more.lines, more.rest)
  }

  function Join(lines: seq<Bytes>): Bytes {
    if lines == [] then [] else lines[0] + [NEWLINE] + Join(lines[1..])
  }

  lemma CutLine(line: Bytes, after: Bytes)
    requires Whole(line)
    ensures Cut(line + [NEWLINE] + after) == Split([line] + Cut(after).lines, Cut(after).rest)
  {
    var s := line + [NEWLINE] + after;
    FirstNewlineIs(line, after);
    assert s[..|line|] == line && s[|line| + 1..] == after;
  }

  lemma CutWhole(s: Bytes)
    requires Whole(s)
    ensures Cut(s) == Split([], s)
  {
    FirstNewlineAt(s);
  }

  /** Cut is the only way to write `s` as newline-free lines and a newline-free rest. */
  lemma {:induction false} CutIsUnique(lines: seq<Bytes>, rest: Bytes)
    requires Whole(rest) && AllWhole(lines)
    ensures Cut(Join(lines) + rest) == Split(lines, rest)
  {
    hide Cut, Whole;
    if lines == [] {
      assert Join(lines) + rest == rest;
      CutWhole(rest);
    } else {
      var after := Join(lines[1..]) + rest;
      assert Join(lines) + rest == lines[0] + [NEWLINE] + after;
      CutLine(lines[0], after);
      CutIsUnique(lines[1..], rest);
    }
  }

  lemma JoinLine(line: Bytes, more: seq<Bytes>)
    ensures Join([line] + more) == line + [NEWLINE] + Join(more)
  {
    assert ([line] + more)[1..] == more;
  }

  lemma {:induction false} CutJoins(s: Bytes)
    ensures Join(Cut(s).lines) + Cut(s).rest == s
    ensures Whole(Cut(s).rest) && AllWhole(Cut(s).lines)
  {
    hide Whole, Join;
    FirstNewlineAt(s);
    var i := FirstNewline(s);
    if i == |s| {
      assert Cut(s) == Split([], s);
      assert Join([]) == [] by { JoinNothing(); }
    } else {
      var line, more := s[..i], Cut(s[i + 1..]);
      CutJoins(s[i + 1..]);
      assert Cut(s) == Split([line] + more.lines, more.rest);
      hide Cut;
      JoinLine(line, more.lines);
      Associate(line + [NEWLINE], Join(more.lines), more.rest);
    }
  }

  lemma Associate(a: Bytes, b: Bytes, c: Bytes)
    ensures (a + b) + c == a + (b + c)
  {}

  lemma JoinNothing()
    ensures Join([]) == []
  {}

  lemma {:induction false} JoinAppends(a: seq<Bytes>, b: seq<Bytes>)
    ensures Join(a + b) == Join(a) + Join(b)
  {
    if a == [] {
      assert a + b == b;
    } else {
      assert (a + b)[1..] == a[1..] + b;
      JoinAppends(a[1..], b);
    }
  }

  /** Cutting in two pieces: the first piece's rest goes in front of the second. */
  lemma CutInTwo(a: Bytes, b: Bytes)
    ensures Cut(a + b) == Split(Cut(a).lines + Cut(Cut(a).rest + b).lines, Cut(Cut(a).rest + b).rest)
  {
    hide Cut, Whole, Join;
    var p := Cut(a);
    var q := Cut(p.rest + b);
    CutJoins(a);
    CutJoins(p.rest + b);
    JoinAppends(p.lines, q.lines);
    calc {
      Join(p.lines + q.lines) + q.rest;
      Join(p.lines) + (Join(q.lines) + q.rest);
      (Join(p.lines) + p.rest) + b;
      a + b;
    }
    CutIsUnique(p.lines + q.lines, q.rest);
  }

  // ---- from raw lines to text ------------------------------------------------------

  /** ASCII, anything else becoming the replacement character. */
  function Decode(raw: Bytes): (s: string)
    ensures |s| == |raw|
  {
    seq(|raw|, i requires 0 <= i < |raw| => if raw[i] < 128 then raw[i] as int as char else '\U{FFFD}')
  }

  /** A text of ASCII characters comes through as it is. */
  lemma AsciiComesThrough(raw: Bytes, text: string)
    requires |raw| == |text| && forall i :: 0 <= i < |raw| ==> raw[i] as int == text[i] as int < 128
    ensures Decode(raw) == text
  {
    forall i | 0 <= i < |raw|
      ensures Decode(raw)[i] == text[i]
    {
      assert raw[i] as int == text[i] as int;
    }
  }

  const RELAY_RX_PREFIX: string := "< "

  function Text(raw: Bytes): string {
    var text := Strip(Decode(raw));
    if StartsWith(text, RELAY_RX_PREFIX) then text[|RELAY_RX_PREFIX|..] else text
  }

  /** A line's text is its characters less the blanks around them, less one leading
      `<` and space that the relay puts there, and otherwise untouched. */
  lemma TextDropsThePrefix(raw: Bytes)
    ensures var plain := Strip(Decode(raw));
      Text(raw) == if |plain| >= 2 && plain[0] == '<' && plain[1] == ' ' then plain[2..] else plain
  {
    hide Strip, Decode;
    var plain := Strip(Decode(raw));
    assert |plain| >= 2 ==> plain[..2] == [plain[0], plain[1]];
  }

  /** So a line reads the same through the relay as without it. */
  lemma RelayedReadsTheSame(raw: Bytes)
    requires Strip(Decode(raw)) == Decode(raw) != ""
    ensures Text([60, 32] + raw) == Decode(raw)
  {
    var relayed, plain := Decode([60, 32] + raw), Decode(raw);
    assert relayed == "< " + plain;
    hide Decode;
    StripsToItself(relayed);
    TextDropsThePrefix([60, 32] + raw);
  }

  lemma StripsToItself(s: string)
    requires s != "" && !IsSpace(s[0]) && !IsSpace(s[|s| - 1])
    ensures Strip(s) == s
  {
    hide IsSpace;
    assert StripRight(s) == s && Blanks(s) == 0;
  }

  /** The texts of the raw lines, blank ones dropped. */
  function Spoken(lines: seq<Bytes>): seq<string> {
    if lines == [] then []
    else (if Text(lines[0]) == "" then [] else [Text(lines[0])]) + Spoken(lines[1..])
  }

  lemma {:induction false} SpokenAppends(a: seq<Bytes>, b: seq<Bytes>)
    ensures Spoken(a + b) == Spoken(a) + Spoken(b)
  {
    if a == [] {
      assert a + b == b;
    } else {
      assert (a + b)[1..] == a[1..] + b;
      SpokenAppends(a[1..], b);
    }
  }

  lemma {:induction false} SpokenAtMost(lines: seq<Bytes>)
    ensures |Spoken(lines)| <= |lines|
  {
    if lines != [] {
      SpokenAtMost(lines[1..]);
    }
  }

  function Say(out: seq<string>, text: string): seq<string> {
    if text == "" then out else out + [text]
  }

  lemma SayThen(out: seq<string>, text: string, later: seq<string>)
    ensures Say(out, text) + later == out + ((if text == "" then [] else [text]) + later)
  {}

  lemma CutFirst(buf: Bytes)
    requires !Whole(buf)
    ensures var i := FirstNewline(buf);
      i < |buf| && Cut(buf) == Split([buf[..i]] + Cut(buf[i + 1..]).lines, Cut(buf[i + 1..]).rest)
  {
    FirstNewlineAt(buf);
  }

  lemma SpokenFirst(raw: Bytes, later: seq<Bytes>)
    ensures Spoken([raw] + later) == (if Text(raw) == "" then [] else [Text(raw)]) + Spoken(later)
  {
    assert ([raw] + later)[1..] == later;
  }

  /** The first complete line is spoken, unless blank, before the rest. */
  lemma SpeakFirst(out: seq<string>, buf: Bytes)
    requires !Whole(buf)
    ensures var i := FirstNewline(buf);
      i < |buf| &&
      Say(out, Text(buf[..i])) + Spoken(Cut(buf[i + 1..]).lines) == out + Spoken(Cut(buf).lines) &&
      Cut(buf).rest == Cut(buf[i + 1..]).rest
  {
    hide Cut, Text, Spoken, FirstNewline, Say, Whole;
    CutFirst(buf);
    var i := FirstNewline(buf);
    var raw, later := buf[..i], Cut(buf[i + 1..]).lines;
    SpokenFirst(raw, later);
    SayThen(out, Text(raw), Spoken(later));
  }

  class LineBuffer {
    var buf: Bytes

    predicate Valid()
      reads this
    {
      Whole(buf)
    }

    constructor ()
      ensures Valid() && buf == []
    {
      buf := [];
    }

    /** Complete lines in everything held and fed; the partial one is held. */
    method Feed(chunk: Bytes) returns (out: seq<string>)
      requires Valid()
      modifies this
      ensures Valid()
      ensures out == Spoken(Cut(old(buf) + chunk).lines)
      ensures buf == Cut(old(buf) + chunk).rest
    {
      if chunk == [] {
        assert buf + chunk == buf;
        CutWhole(buf);
        return [];
      }
      hide Cut, Spoken, Text, FirstNewline;
      ghost var all := buf + chunk;
      buf := buf + chunk;
      out := [];
      while NEWLINE in buf
        invariant out + Spoken(Cut(buf).lines) == Spoken(Cut(all).lines)
        invariant Cut(buf).rest == Cut(all).rest
        decreases |buf|
      {
        SpeakFirst(out, buf);
        var i := FirstNewline(buf);
        var raw := buf[..i];
        buf := buf[i + 1..];
        var text := Text(raw);
        if text != "" {
          out := out + [text];
        }
      }
      CutWhole(buf);
      assert out + Spoken([]) == out by { SpokenAtMost([]); }
    }

    /** The single line in `chunk`, for callers that read a line at a time. */
    method Line(chunk: Bytes) returns (line: Option<string>)
      requires Valid()
      modifies this
      ensures Valid() && buf == Cut(old(buf) + chunk).rest
      ensures var got := Spoken(Cut(old(buf) + chunk).lines);
        line == if got == [] then None else Some(got[0])
    {
      var got := Feed(chunk);
      line := if got == [] then None else Some(got[0]);
    }

    method Reset()
      modifies this
      ensures Valid() && buf == []
    {
      buf := [];
    }
  }

  // ---- any way of cutting the stream ---------------------------------------------------

  function Concat(chunks: seq<Bytes>): Bytes {
    if chunks == [] then [] else Concat(chunks[..|chunks| - 1]) + chunks[|chunks| - 1]
  }

  /** What feed() outputs and holds over a whole series of chunks. */
  function FeedAll(chunks: seq<Bytes>): (seq<string>, Bytes) {
    if chunks == [] then ([], [])
    else
      var (out, held) := FeedAll(chunks[..|chunks| - 1]);
      var cut := Cut(held + chunks[|chunks| - 1]);
      (out + Spoken(cut.lines), cut.rest)
  }

  /** What a caller of line() sees over the same chunks. */
  function LineAll(chunks: seq<Bytes>): (seq<string>, Bytes) {
    if chunks == [] then ([], [])
    else
      var (out, held) := LineAll(chunks[..|chunks| - 1]);
      var cut := Cut(held + chunks[|chunks| - 1]);
      var got := Spoken(cut.lines);
      (if got == [] then out else out + [got[0]], cut.rest)
  }

  /** Chunk boundaries do not matter: the outputs are the one-shot parse, and the
      held bytes are exactly those after the last newline. */
  lemma {:induction false} ChunksDoNotMatter(chunks: seq<Bytes>)
    ensures FeedAll(chunks).0 == Spoken(Cut(Concat(chunks)).lines)
    ensures FeedAll(chunks).1 == Cut(Concat(chunks)).rest
  {
    if chunks != [] {
      var init, last := chunks[..|chunks| - 1], chunks[|chunks| - 1];
      ChunksDoNotMatter(init);
      CutInTwo(Concat(init), last);
      SpokenAppends(Cut(Concat(init)).lines, Cut(Cut(Concat(init)).rest + last).lines);
    }
  }

  function Newlines(s: Bytes): nat {
    if s == [] then 0 else (if s[0] == NEWLINE then 1 else 0) + Newlines(s[1..])
  }

  lemma {:induction false} OneNewlineOneLine(held: Bytes, chunk: Bytes)
    requires Whole(held)
    ensures |Cut(held + chunk).lines| == Newlines(chunk)
    decreases |chunk|
  {
    if chunk == [] {
      assert held + chunk == held;
      CutWhole(held);
    } else if chunk[0] == NEWLINE {
      assert held + chunk == held + [NEWLINE] + chunk[1..];
      assert [] + chunk[1..] == chunk[1..];
      OneNewlineOneLine([], chunk[1..]);
      CutLine(held, chunk[1..]);
    } else {
      assert held + chunk == (held + [chunk[0]]) + chunk[1..];
      OneNewlineOneLine(held + [chunk[0]], chunk[1..]);
    }
  }

  /** Readers that hand line() at most one newline per chunk lose nothing. */
  lemma {:induction false} LineLosesNothing(chunks: seq<Bytes>)
    requires forall k :: 0 <= k < |chunks| ==> Newlines(chunks[k]) <= 1
    ensures LineAll(chunks) == FeedAll(chunks)
  {
    hide Cut, Spoken, Whole, Concat;
    if chunks != [] {
      var init, last := chunks[..|chunks| - 1], chunks[|chunks| - 1];
      LineLosesNothing(init);
      ChunksDoNotMatter(init);
      CutJoins(Concat(init));
      var held := FeedAll(init).1;
      OneNewlineOneLine(held, last);
      var got := Spoken(Cut(held + last).lines);
      SpokenAtMost(Cut(held + last).lines);
      var out := FeedAll(init).0;
      assert if got == [] then out + got == out else out + got == out + [got[0]];
    }
  }

  // ---- the WiFi carrier's readline() ---------------------------------------------------

  /** What one recv() returns: bytes, or a timeout, an error or a closed peer. */
  datatype Recv = Data(bytes: Bytes) | Nothing

  function Arrived(net: seq<Recv>): Bytes {
    if net == [] then [] else (if net[0].Data? then net[0].bytes else []) + Arrived(net[1..])
  }

  class WifiSerial {
    var buf: Bytes
    var net: seq<Recv>   // what the socket will return, call by call

    constructor (net: seq<Recv>)
      ensures buf == [] && this.net == net
    {
      buf, this.net := [], net;
    }

    /** One whole line, or nothing when the socket runs dry: no byte is dropped,
        duplicated or reordered, and a line carries exactly its own newline. */
    method Readline() returns (line: Bytes)
      modifies this
      ensures line + buf + Arrived(net) == old(buf + Arrived(net))
      ensures line == [] || (line[|line| - 1] == NEWLINE && Newlines(line) == 1)
      ensures line == [] ==> Whole(buf)
    {
      while NEWLINE !in buf
        invariant buf + Arrived(net) == old(buf + Arrived(net))
        decreases |net|
      {
        if net == [] {
          return [];
        }
        var c := net[0];
        net := net[1..];
        if c.Nothing? || c.bytes == [] {
          return [];
        }
        buf := buf + c.bytes;
      }
      FirstNewlineAt(buf);
      var i := FirstNewline(buf);
      ghost var before := buf;
      line := buf[..i] + [NEWLINE];
      buf := buf[i + 1..];
      assert line + buf == before;
      NewlinesOfLine(before[..i]);
    }
  }

  lemma {:induction false} NewlinesOfLine(s: Bytes)
    requires Whole(s)
    ensures Newlines(s + [NEWLINE]) == 1
  {
    if s == [] {
      assert s + [NEWLINE] == [NEWLINE] && [NEWLINE][1..] == [];
    } else {
      assert (s + [NEWLINE])[1..] == s[1..] + [NEWLINE];
      NewlinesOfLine(s[1..]);
    }
  }
}
