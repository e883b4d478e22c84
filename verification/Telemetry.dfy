/** The telemetry stream decoder. A line arrives as its blank-separated words;
    turning one word into an integer is a parameter. */
module Telemetry {
  import opened Options
  import opened Texts

  const SEQ_MODULUS := 128

  type Words = seq<string>
  type Frame = map<string, int>
  /** The value of a word in a named column, if it is a number there. */
  type Parser = (string, string) -> Option<int>

  /** A frame is its values under its column names, a repeated name keeping the
      last; one bad value spoils it. */
  function Row(parse: Parser, columns: seq<string>, values: Words): Option<Frame>
    requires |columns| == |values|
  {
    if columns == [] then Some(map[])
    else
      var n := |columns| - 1;
      match (Row(parse, columns[..n], values[..n]), parse(columns[n], values[n]))
      case (Some(row), Some(v)) => Some(row[columns[n] := v])
      case _ => None
  }

  /** Words after the last header line, if there was one. */
  function LatestHeader(lines: seq<Words>): Option<seq<string>> {
    if lines == [] then None
    else
      var last := lines[|lines| - 1];
      if last != [] && last[0] == "thdr" then Some(last[1..]) else LatestHeader(lines[..|lines| - 1])
  }

  predicate IsFrameLine(words: Words) {
    words != [] && words[0] == "t"
  }

  function FrameLines(lines: seq<Words>): nat {
    if lines == [] then 0
    else FrameLines(lines[..|lines| - 1]) + if IsFrameLine(lines[|lines| - 1]) then 1 else 0
  }

  /** The frame lines that came before any header line. */
  function OrphanLines(lines: seq<Words>): nat {
    if lines == [] then 0
    else
      var init, last := lines[..|lines| - 1], lines[|lines| - 1];
      OrphanLines(init) + if IsFrameLine(last) && !(exists h :: h in init && IsHeader(h)) then 1 else 0
  }

  predicate IsHeader(words: Words) {
    words != [] && words[0] == "thdr"
  }

  // ---- the stream's state -----------------------------------------------------------------

  datatype Stream = Stream(columns: Option<seq<string>>, frames: seq<Frame>, orphans: nat, malformed: nat,
                           dropped: nat, lastSeq: Option<int>)

  const FRESH := Stream(None, [], 0, 0, 0, None)

  /** Frames missing between two numbers one modulus cannot tell apart. */
  function Gap(last: Option<int>, number: int): nat {
    match last
    case None => 0
    case Some(prev) =>
      var delta := (number - prev) % SEQ_MODULUS;
      if delta > 1 then delta - 1 else 0
  }

  function Tracked(s: Stream, number: int): Stream {
    s.(dropped := s.dropped + Gap(s.lastSeq, number), lastSeq := Some(number))
  }

  function Kept(s: Stream, row: Frame): Stream {
    var tracked := if "seq" in row then Tracked(s, row["seq"]) else s;
    tracked.(frames := tracked.frames + [row])
  }

  function FedFrame(parse: Parser, s: Stream, values: Words): Stream {
    match s.columns
    case None => s.(orphans := s.orphans + 1)
    case Some(columns) =>
      if |values| != |columns| then s.(malformed := s.malformed + 1)
      else match Row(parse, columns, values)
        case None => s.(malformed := s.malformed + 1)
        case Some(row) => Kept(s, row)
  }

  function Fed(parse: Parser, s: Stream, words: Words): Stream {
    if words == [] then s
    else if words[0] == "thdr" then s.(columns := Some(words[1..]))
    else if words[0] == "t" then FedFrame(parse, s, words[1..])
    else s
  }

  function FedAll(parse: Parser, lines: seq<Words>): Stream {
    if lines == [] then FRESH
    else Fed(parse, FedAll(parse, lines[..|lines| - 1]), lines[|lines| - 1])
  }

  class TlmStream {
    const parse: Parser
    var columns: Option<seq<string>>
    var frames: seq<Frame>
    var orphanFrames: nat
    var malformed: nat
    var dropped: nat
    var lastSeq: Option<int>

    ghost function State(): Stream
      reads this
    {
      Stream(columns, frames, orphanFrames, malformed, dropped, lastSeq)
    }

    constructor (parse: Parser)
      ensures this.parse == parse && State() == FRESH
    {
      this.parse := parse;
      columns, frames, orphanFrames, malformed, dropped, lastSeq := None, [], 0, 0, 0, None;
    }

    /** feed(): the decoded frame, or nothing for any other line. */
    method Feed(words: Words) returns (frame: Option<Frame>)
      modifies this
      ensures State() == Fed(parse, old(State()), words)
      ensures frame == if |frames| > |old(frames)| then Some(frames[|frames| - 1]) else None
    {
      frame := None;
      if words == [] {
        return;
      }
      if words[0] == "thdr" {
        FeedHeader(words[1..]);
      } else if words[0] == "t" {
        frame := FeedFrame(words[1..]);
      }
    }

    method FeedHeader(names: seq<string>)
      modifies `columns
      ensures columns == Some(names)
    {
      if columns == Some(names) {
        return;
      }
      columns := Some(names);
    }

    method FeedFrame(values: Words) returns (frame: Option<Frame>)
      modifies this
      ensures State() == FedFrame(parse, old(State()), values)
      ensures frame == if |frames| > |old(frames)| then Some(frames[|frames| - 1]) else None
    {
      if columns == None {
        orphanFrames := orphanFrames + 1;
        return None;
      }
      var names := columns.value;
      if |values| != |names| {
        malformed := malformed + 1;
        return None;
      }
      var row: Frame := map[];
      for i := 0 to |names|
        invariant State() == old(State())
        invariant Row(parse, names[..i], values[..i]) == Some(row)
      {
        assert names[..i + 1][..i] == names[..i] && values[..i + 1][..i] == values[..i];
        var v := parse(names[i], values[i]);
        if v == None {
          BadValueSpoils(parse, names, values, i);
          malformed := malformed + 1;
          return None;
        }
        row := row[names[i] := v.value];
      }
      assert names[..|names|] == names && values[..|names|] == values;
      if "seq" in row {
        Track(row["seq"]);
      }
      frames := frames + [row];
      frame := Some(row);
    }

    method Track(number: int)
      modifies `dropped, `lastSeq
      ensures State() == Tracked(old(State()), number)
    {
      if lastSeq != None {
        var delta := (number - lastSeq.value) % SEQ_MODULUS;
        if delta > 1 {
          dropped := dropped + delta - 1;
        }
      }
      lastSeq := Some(number);
    }
  }

  lemma {:induction false} BadValueSpoils(parse: Parser, columns: seq<string>, values: Words, i: nat)
    requires i < |columns| == |values| && parse(columns[i], values[i]) == None
    ensures Row(parse, columns, values) == None
  {
    var n := |columns| - 1;
    if i < n {
      BadValueSpoils(parse, columns[..n], values[..n], i);
    }
  }

  // ---- what a row is -------------------------------------------------------------------------

  lemma {:induction false} RowExistsIff(parse: Parser, columns: seq<string>, values: Words)
    requires |columns| == |values|
    ensures Row(parse, columns, values).Some? <==>
              forall i :: 0 <= i < |columns| ==> parse(columns[i], values[i]).Some?
  {
    if columns != [] {
      var n := |columns| - 1;
      RowExistsIff(parse, columns[..n], values[..n]);
    }
  }

  /** A row's columns are the header's, each holding the value at the name's last
      place in it. */
  lemma {:induction false} RowIsZip(parse: Parser, columns: seq<string>, values: Words, name: string)
    requires |columns| == |values| && Row(parse, columns, values).Some?
    ensures var row := Row(parse, columns, values).value;
      if name in row
      then exists i :: LastPlace(columns, name, i) && Some(row[name]) == parse(name, values[i])
      else name !in columns
  {
    if columns != [] {
      var n := |columns| - 1;
      var row := Row(parse, columns, values).value;
      assert row == Row(parse, columns[..n], values[..n]).value[columns[n] := parse(columns[n], values[n]).value];
      if name == columns[n] {
        assert LastPlace(columns, name, n);
      } else {
        RowIsZip(parse, columns[..n], values[..n], name);
        hide Row;
        if name in row {
          var i :| LastPlace(columns[..n], name, i) && Some(row[name]) == parse(name, values[..n][i]);
          assert LastPlace(columns, name, i) && values[..n][i] == values[i];
        }
      }
    }
  }

  ghost predicate LastPlace(columns: seq<string>, name: string, i: int) {
    0 <= i < |columns| && columns[i] == name && forall j :: i < j < |columns| ==> columns[j] != name
  }

  // ---- nothing is unaccounted for --------------------------------------------------------------

  /** Every frame line ends up in exactly one count, the orphans being those before the
      first header, and every line is read against the latest header. */
  lemma {:induction false} EveryFrameLineCounted(parse: Parser, lines: seq<Words>)
    ensures var s := FedAll(parse, lines);
      && FrameLines(lines) == |s.frames| + s.orphans + s.malformed
      && s.orphans == OrphanLines(lines)
      && s.columns == LatestHeader(lines)
  {
    if lines != [] {
      EveryFrameLineCounted(parse, lines[..|lines| - 1]);
      HeaderSeenIff(lines[..|lines| - 1]);
    }
  }

  lemma {:induction false} HeaderSeenIff(lines: seq<Words>)
    ensures LatestHeader(lines).Some? <==> exists h :: h in lines && IsHeader(h)
  {
    if lines != [] {
      var init, last := lines[..|lines| - 1], lines[|lines| - 1];
      HeaderSeenIff(init);
      assert lines == init + [last];
      assert IsHeader(last) ==> last in lines && IsHeader(last);
    }
  }

  /** A frame is kept exactly when a `t` line has a value, and a number, for each
      column of the header in force when it arrived; that is all it holds. */
  lemma FrameReadAgainstHeader(parse: Parser, lines: seq<Words>, words: Words)
    ensures var before, after := FedAll(parse, lines), FedAll(parse, lines + [words]);
      var header := LatestHeader(lines);
      if IsFrameLine(words) && header.Some? && |words| - 1 == |header.value|
         && Row(parse, header.value, words[1..]).Some?
      then after.frames == before.frames + [Row(parse, header.value, words[1..]).value]
      else after.frames == before.frames
  {
    EveryFrameLineCounted(parse, lines);
    assert (lines + [words])[..|lines|] == lines;
    hide Row;
  }

  // ---- lost frames ------------------------------------------------------------------------------

  /** The sequence numbers of the frames that carry one. */
  function Numbers(frames: seq<Frame>): seq<int> {
    if frames == [] then []
    else
      var last := frames[|frames| - 1];
      Numbers(frames[..|frames| - 1]) + if "seq" in last then [last["seq"]] else []
  }

  function Dropped(numbers: seq<int>): nat {
    if |numbers| < 2 then 0
    else Dropped(numbers[..|numbers| - 1]) + Gap(Some(numbers[|numbers| - 2]), numbers[|numbers| - 1])
  }

  function LastOf(numbers: seq<int>): Option<int> {
    if numbers == [] then None else Some(numbers[|numbers| - 1])
  }

  /** The running count depends on decoded frames alone. */
  lemma {:induction false} DroppedFromFrames(parse: Parser, lines: seq<Words>)
    ensures var s := FedAll(parse, lines);
      s.dropped == Dropped(Numbers(s.frames)) && s.lastSeq == LastOf(Numbers(s.frames))
  {
    if lines != [] {
      var before := FedAll(parse, lines[..|lines| - 1]);
      DroppedFromFrames(parse, lines[..|lines| - 1]);
      hide FedAll, Row, Gap, Numbers, Dropped;
      var words := lines[|lines| - 1];
      forall row | Fed(parse, before, words) == Kept(before, row)
        ensures Kept(before, row).dropped == Dropped(Numbers(Kept(before, row).frames))
        ensures Kept(before, row).lastSeq == LastOf(Numbers(Kept(before, row).frames))
      {
        KeptTracks(before, row);
      }
      FeedKeepsOrNot(parse, before, words);
    }
  }

  /** A line either adds one decoded frame or leaves frames and loss alone. */
  lemma FeedKeepsOrNot(parse: Parser, s: Stream, words: Words)
    ensures var after := Fed(parse, s, words);
      || (after.frames == s.frames && after.dropped == s.dropped && after.lastSeq == s.lastSeq)
      || exists row :: after == Kept(s, row)
  {}

  lemma KeptTracks(s: Stream, row: Frame)
    requires s.dropped == Dropped(Numbers(s.frames)) && s.lastSeq == LastOf(Numbers(s.frames))
    ensures var after := Kept(s, row);
      after.dropped == Dropped(Numbers(after.frames)) && after.lastSeq == LastOf(Numbers(after.frames))
  {
    NumbersExtend(s.frames, row);
    hide Gap, Dropped, Numbers;
  }

  lemma NumbersExtend(frames: seq<Frame>, row: Frame)
    ensures var numbers, more := Numbers(frames), Numbers(frames + [row]);
      if "seq" in row
      then more == numbers + [row["seq"]] && Dropped(more) == Dropped(numbers) + Gap(LastOf(numbers), row["seq"])
      else more == numbers
  {
    assert (frames + [row])[..|frames|] == frames;
    var numbers, more := Numbers(frames), Numbers(frames + [row]);
    if "seq" in row {
      assert more[..|numbers|] == numbers;
    }
  }

  /** `sent` are the places, in the sender's own count, of the decoded frames. */
  ghost predicate SentAs(numbers: seq<int>, sent: seq<nat>) {
    && |numbers| == |sent|
    && (forall i :: 0 <= i < |sent| ==> numbers[i] == sent[i] % 128)
    && (forall i :: 0 < i < |sent| ==> sent[i - 1] < sent[i])
  }

  ghost predicate NoLongGap(sent: seq<nat>) {
    forall i :: 0 < i < |sent| ==> sent[i] < sent[i - 1] + 128
  }

  /** Frames the sender counted between the first and last decoded one, less those decoded. */
  function Undecoded(sent: seq<nat>): int {
    if sent == [] then 0 else sent[|sent| - 1] - sent[0] + 1 - |sent|
  }

  lemma GapAgainstTruth(a: nat, b: nat)
    requires a < b
    ensures var gap := Gap(Some(a % 128), b % 128);
      gap <= b - a - 1 && (gap == b - a - 1 <==> b - a < 128)
  {
    assert (b % 128 - a % 128) % 128 == (b - a) % 128;
  }

  lemma {:induction false} DroppedAgainstTruth(numbers: seq<int>, sent: seq<nat>)
    requires SentAs(numbers, sent)
    ensures Dropped(numbers) <= Undecoded(sent) && (Dropped(numbers) == Undecoded(sent) <==> NoLongGap(sent))
  {
    var n := |sent| - 1;
    if n >= 1 {
      DroppedAgainstTruth(numbers[..n], sent[..n]);
      GapAgainstTruth(sent[n - 1], sent[n]);
      assert NoLongGap(sent) <==> NoLongGap(sent[..n]) && sent[n] < sent[n - 1] + 128;
    }
  }

  /** For a sender that counts modulo 128 the loss is never overstated, and is exact
      exactly when consecutive decoded frames are always under 128 apart. */
  lemma LossIsExactIff(parse: Parser, lines: seq<Words>, sent: seq<nat>)
    requires SentAs(Numbers(FedAll(parse, lines).frames), sent)
    ensures var dropped := FedAll(parse, lines).dropped;
      dropped <= Undecoded(sent) && (dropped == Undecoded(sent) <==> NoLongGap(sent))
  {
    DroppedFromFrames(parse, lines);
    DroppedAgainstTruth(Numbers(FedAll(parse, lines).frames), sent);
  }
}
