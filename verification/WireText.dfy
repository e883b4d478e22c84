/** The sequenced wire's text: the id put on a command line, the replies that
    quote ids back, and the host counter that allocates them. */
module WireText {
  import opened Options
  import opened Texts

  const MAX_SEQUENCE_ID: nat := 0xFFFFFFFF

  datatype Reply = Ack(n: nat) | Nack(n: nat) | Err(code: nat, id: nat)

  // ---- writing the id on a command line ---------------------------------------------

  /** `%d`. Only a host that has heard `nack 0` counts from below zero. */
  function Signed(n: int): (s: string)
    ensures s != ""
  {
    if n < 0 then "-" + Decimal(-n) else Decimal(n)
  }

  function WithId(line: string, id: int): string {
    line + " #" + Signed(id)
  }

  // ---- replies ----------------------------------------------------------------------

  function Render(r: Reply, done: nat, reason: string): string {
    match r
    case Ack(n) => "ack " + Decimal(n) + " " + Decimal(done) + " " + reason
    case Nack(n) => "nack " + Decimal(n) + " " + Decimal(done) + " " + reason
    case Err(code, id) => "err " + Decimal(code) + " #" + Decimal(id)
  }

  /** Blanks and then a number, right after `head`. */
  function NumberAfter(line: string, head: string): Option<nat> {
    if !StartsWith(line, head) then None
    else
      var after := line[|head|..];
      var b := Blanks(after);
      var d := DigitRun(after[b..]);
      if b == 0 || d == 0 then None else Some(Value(after[b..][..d]))
  }

  /** That is: one blank or more, then the longest run of digits. */
  lemma NumberAfterIff(line: string, head: string, blanks: string, digits: string, rest: string)
    requires line == head + blanks + digits + rest
    requires (forall c :: c in blanks ==> IsSpace(c)) && AllDigits(digits)
    requires (digits + rest == "" || !IsSpace((digits + rest)[0])) && (rest == "" || !IsDigit(rest[0]))
    ensures NumberAfter(line, head) == if blanks == "" || digits == "" then None else Some(Value(digits))
  {
    var after := line[|head|..];
    assert after == blanks + (digits + rest);
    BlanksOf(blanks, digits + rest);
    assert after[|blanks|..] == digits + rest;
    RunOf(digits, rest);
    assert (digits + rest)[..|digits|] == digits;
    hide IsSpace, IsDigit, Value, DigitRun, Blanks;
  }

  lemma {:induction false} BlanksOf(blanks: string, rest: string)
    requires (forall c :: c in blanks ==> IsSpace(c)) && (rest == "" || !IsSpace(rest[0]))
    ensures Blanks(blanks + rest) == |blanks|
  {
    if blanks == "" {
      assert blanks + rest == rest;
    } else {
      assert (blanks + rest)[1..] == blanks[1..] + rest;
      BlanksOf(blanks[1..], rest);
    }
  }

  /** `^(ack|nack)\s+(\d+)`. */
  function ParseReply(line: string): Option<Reply> {
    match NumberAfter(line, "ack")
    case Some(n) => Some(Ack(n))
    case None =>
      match NumberAfter(line, "nack")
      case Some(n) => Some(Nack(n))
      case None => None
  }

  predicate IsWordChar(c: char) {
    'a' <= c <= 'z' || 'A' <= c <= 'Z' || IsDigit(c) || c == '_'
  }

  /** `%d\b` for the number k. */
  predicate StartsWithNumber(s: string, k: int) {
    StartsWith(s, Signed(k)) && (|s| > |Signed(k)| ==> !IsWordChar(s[|Signed(k)|]))
  }

  /** The number stands alone before the end, and before all but a letter, a digit and
      an underscore. */
  lemma NumberStandsAlone(k: int, c: char, rest: string)
    ensures StartsWithNumber(Signed(k), k)
    ensures StartsWithNumber(Signed(k) + [c] + rest, k)
       <==> !('a' <= c <= 'z') && !('A' <= c <= 'Z') && !('0' <= c <= '9') && c != '_'
  {
    hide Signed;
    var s := Signed(k);
    assert (s + [c] + rest)[..|s|] == s && (s + [c] + rest)[|s|] == c;
  }

  /** `^(ack|err)\s+<k>\b`, what seqd() waits for. */
  predicate SeqdMatches(line: string, k: int) {
    (StartsWith(line, "ack") || StartsWith(line, "err")) &&
    var after := line[3..];
    Blanks(after) > 0 && StartsWithNumber(after[Blanks(after)..], k)
  }

  lemma NumberReadsBack(head: string, n: nat, rest: string)
    requires rest != "" && rest[0] == ' '
    ensures NumberAfter(head + " " + Decimal(n) + rest, head) == Some(n)
  {
    var d := Decimal(n);
    RunOf(d, rest);
    ValueOfDecimal(n);
    assert IsSpace(' ') && !IsSpace(d[0]);
    hide IsSpace, Decimal, Value, DigitRun;
    var line := head + " " + d + rest;
    var after := line[|head|..];
    assert after == " " + (d + rest);
    assert after[1..] == d + rest;
    assert Blanks(after) == 1 && Blanks(after[1..]) == 0;
    assert after[1..][..|d|] == d;
  }

  lemma OtherHead(line: string, head: string)
    requires !StartsWith(line, head)
    ensures NumberAfter(line, head) == None
  {}

  /** The host reads an ack or a nack back as the robot meant it; an err line is
      neither. */
  lemma ReplyReadsBack(r: Reply, done: nat, reason: string)
    ensures ParseReply(Render(r, done, reason)) == if r.Err? then None else Some(r)
  {
    var line := Render(r, done, reason);
    hide NumberAfter;
    match r {
      case Err(_, _) =>
        assert line[0] == 'e';
        OtherHead(line, "ack");
        OtherHead(line, "nack");
      case Ack(n) =>
        var rest := " " + Decimal(done) + " " + reason;
        assert line == "ack" + " " + Decimal(n) + rest;
        NumberReadsBack("ack", n, rest);
      case Nack(n) =>
        var rest := " " + Decimal(done) + " " + reason;
        assert line == "nack" + " " + Decimal(n) + rest;
        assert line[0] == 'n';
        OtherHead(line, "ack");
        NumberReadsBack("nack", n, rest);
    }
  }

  lemma NumberIs(n: nat, rest: string, k: int)
    requires rest != "" && rest[0] == ' '
    ensures StartsWithNumber(Decimal(n) + rest, k) <==> n == k
  {
    var s, d, e := Decimal(n) + rest, Decimal(n), Signed(k);
    assert IsDigit(d[0]) && s[0] == d[0];
    assert |e| < |d| ==> s[|e|] == d[|e|] && IsDigit(s[|e|]);
    assert |e| > |d| ==> s[|d|] == ' ' && IsDigit(e[|d|]);
    if StartsWithNumber(s, k) {
      assert |e| == |d|;
      assert s[..|e|] == d && s[..|e|] == e;
      ValueOfDecimal(n);
      ValueOfDecimal(k);
    }
  }

  /** What seqd() takes for its receipt: an ack for exactly id k -- or an err line
      whose CODE is k, whatever command that err is about. */
  lemma SeqdReceipt(r: Reply, done: nat, reason: string, k: int)
    ensures SeqdMatches(Render(r, done, reason), k)
       <==> (r.Ack? && r.n == k) || (r.Err? && r.code == k)
  {
    var line := Render(r, done, reason);
    match r {
      case Nack(_) => assert line[0] == 'n';
      case Ack(n) => ReceiptAfter(line, "ack", n, " " + Decimal(done) + " " + reason, k);
      case Err(code, id) => ReceiptAfter(line, "err", code, " #" + Decimal(id), k);
    }
  }

  lemma ReceiptAfter(line: string, head: string, n: nat, rest: string, k: int)
    requires head == "ack" || head == "err"
    requires rest != "" && rest[0] == ' '
    requires line == head + " " + Decimal(n) + rest
    ensures SeqdMatches(line, k) <==> n == k
  {
    var after := line[3..];
    assert line[..3] == head;
    assert after == " " + (Decimal(n) + rest);
    assert after[1..] == Decimal(n) + rest;
    assert !IsSpace(after[1..][0]);
    assert Blanks(after[1..]) == 0 && Blanks(after) == 1;
    NumberIs(n, rest, k);
  }

  // ---- the host's counter ------------------------------------------------------------

  /** The counter after a reply: an ack names the last id, a nack the next one. */
  function Observed(r: Reply): int
    requires !r.Err?
  {
    if r.Ack? then r.n else r.n - 1
  }

  /** First token of a line: its text up to the first space. */
  function Verb(line: string): (v: string)
    ensures v <= line && ' ' !in v && (|v| < |line| ==> line[|v|] == ' ')
  {
    if line == "" || line[0] == ' ' then "" else [line[0]] + Verb(line[1..])
  }

  class Sequencer {
    var last: int                // the last id handed out
    const verbs: set<string>     // the firmware's sequenced verbs

    constructor (verbs: set<string>)
      ensures last == 0 && this.verbs == verbs
    {
      last, this.verbs := 0, verbs;
    }

    predicate IsSequenced(line: string)
      reads this
    {
      Verb(line) in verbs
    }

    /** At most one id per command; a line that has an id keeps it. */
    method Format(line: string, force: bool) returns (wire: string)
      modifies this
      ensures if '#' !in line && (force || IsSequenced(line))
              then last == old(last) + 1 && wire == WithId(line, last)
              else last == old(last) && wire == line
    {
      if '#' in line {
        return line;
      }
      if !force && !IsSequenced(line) {
        return line;
      }
      last := last + 1;
      wire := line + " #" + Signed(last);
    }

    method Reset() returns (s: int)
      modifies this
      ensures s == last == 0
    {
      last := 0;
      s := last;
    }

    method ObserveReply(line: string) returns (got: Option<int>)
      modifies this
      ensures match ParseReply(line)
        case None => got == None && last == old(last)
        case Some(r) => got == Some(last) && last == Observed(r)
    {
      var m := ParseReply(line);
      if m == None {
        return None;
      }
      last := if m.value.Ack? then m.value.n else m.value.n - 1;
      return Some(last);
    }
  }

  /** wire_acceptance's tracker: the id to send next, by the first reply that says. */
  function NextIdOf(lines: seq<string>, cur: nat): nat {
    if lines == [] then cur
    else
      match NumberAfterOneSpace(lines[0], "nack")
      case Some(n) => n
      case None =>
        match NumberAfterOneSpace(lines[0], "ack")
        case Some(n) => n + 1
        case None => NextIdOf(lines[1..], cur)
  }

  function NumberAfterOneSpace(line: string, head: string): Option<nat> {
    if !StartsWith(line, head + " ") then None
    else
      var after := line[|head| + 1..];
      var d := DigitRun(after);
      if d == 0 then None else Some(Value(after[..d]))
  }

  method NextId(lines: seq<string>, cur: nat) returns (next: nat)
    ensures next == NextIdOf(lines, cur)
  {
    for i := 0 to |lines|
      invariant NextIdOf(lines, cur) == NextIdOf(lines[i..], cur)
    {
      assert lines[i..][1..] == lines[i + 1..];
      var m := NumberAfterOneSpace(lines[i], "nack");
      if m.Some? {
        return m.value;
      }
      m := NumberAfterOneSpace(lines[i], "ack");
      if m.Some? {
        return m.value + 1;
      }
    }
    return cur;
  }

  lemma OneSpaceReadsBack(head: string, n: nat, rest: string)
    requires rest != "" && rest[0] == ' '
    ensures NumberAfterOneSpace(head + " " + Decimal(n) + rest, head) == Some(n)
  {
    var line := head + " " + Decimal(n) + rest;
    assert line[..|head| + 1] == head + " ";
    assert line[|head| + 1..] == Decimal(n) + rest;
    RunOf(Decimal(n), rest);
    assert (Decimal(n) + rest)[..|Decimal(n)|] == Decimal(n);
    ValueOfDecimal(n);
  }

  /** Both trackers agree: the next id is one past the observed counter. */
  lemma TrackersAgree(r: Reply, done: nat, reason: string, later: seq<string>, cur: nat)
    requires !r.Err?
    ensures NextIdOf([Render(r, done, reason)] + later, cur) == Observed(r) + 1
  {
    var line := Render(r, done, reason);
    var rest := " " + Decimal(done) + " " + reason;
    var head := if r.Ack? then "ack" else "nack";
    assert line == head + " " + Decimal(r.n) + rest;
    OneSpaceReadsBack(head, r.n, rest);
    assert line[0] == head[0];
    assert ([line] + later)[0] == line;
  }

  // ---- the retrying sender -------------------------------------------------------------

  /** The first of the heard lines that answers id k. */
  function Answer(heard: seq<string>, k: int): Option<string> {
    if heard == [] then None
    else if SeqdMatches(heard[0], k) then Some(heard[0])
    else Answer(heard[1..], k)
  }

  lemma {:induction false} AnswerIsFirst(heard: seq<string>, k: int)
    ensures match Answer(heard, k)
      case None => forall l :: l in heard ==> !SeqdMatches(l, k)
      case Some(answer) => SeqdMatches(answer, k) && exists i ::
        0 <= i < |heard| && heard[i] == answer && forall j :: 0 <= j < i ==> !SeqdMatches(heard[j], k)
  {
    hide SeqdMatches;
    if heard != [] {
      AnswerIsFirst(heard[1..], k);
      if SeqdMatches(heard[0], k) {
        assert heard[0] == Answer(heard, k).value;
      } else if Answer(heard, k).Some? {
        var i :| 0 <= i < |heard[1..]| && heard[1..][i] == Answer(heard, k).value
          && forall j :: 0 <= j < i ==> !SeqdMatches(heard[1..][j], k);
        assert heard[i + 1] == Answer(heard, k).value;
        assert forall j :: 0 < j < i + 1 ==> heard[j] == heard[1..][j - 1];
      }
    }
  }

  /** What a command goes out as: with a fresh id, unless it already carries one. */
  function Wire(cmd: string, id: int): string {
    if '#' in cmd then cmd else WithId(cmd, id)
  }

  /** seqd(): `heard[i]` is what the link reads back after send i. Every send is
      the identical line, under one freshly allocated id if it has none, and
      resending stops at the first answer. */
  method Seqd(s: Sequencer, cmd: string, tries: nat, heard: seq<seq<string>>)
    returns (reply: Option<string>, sent: seq<string>)
    requires |heard| >= tries
    modifies s
    ensures s.last == old(s.last) + if '#' in cmd then 0 else 1
    ensures |sent| <= tries && forall i :: 0 <= i < |sent| ==> sent[i] == Wire(cmd, s.last)
    ensures reply.Some? ==> |sent| > 0 && reply == Answer(heard[|sent| - 1], s.last)
    ensures reply.None? ==> |sent| == tries
    ensures forall i :: 0 <= i < |sent| - (if reply.Some? then 1 else 0) ==> Answer(heard[i], s.last) == None
  {
    hide SeqdMatches, WithId, Verb;
    var wire := s.Format(cmd, true);
    sent := [];
    for i := 0 to tries
      invariant s.last == old(s.last) + if '#' in cmd then 0 else 1
      invariant |sent| == i && forall j :: 0 <= j < i ==> sent[j] == Wire(cmd, s.last)
      invariant forall j :: 0 <= j < i ==> Answer(heard[j], s.last) == None
    {
      sent := sent + [wire];
      var lines := heard[i];
      for k := 0 to |lines|
        invariant Answer(lines, s.last) == Answer(lines[k..], s.last)
      {
        assert lines[k..][1..] == lines[k + 1..];
        if SeqdMatches(lines[k], s.last) {
          return Some(lines[k]), sent;
        }
      }
    }
    return None, sent;
  }

  /** The lines up to and including the first that starts with `receipt`. */
  function UpTo(lines: seq<string>, receipt: string): seq<string> {
    if lines == [] then []
    else if receipt <= lines[0] then [lines[0]]
    else [lines[0]] + UpTo(lines[1..], receipt)
  }

  predicate Arrived(lines: seq<string>, receipt: string) {
    exists i :: 0 <= i < |lines| && receipt <= lines[i]
  }

  /** What is heard up to the receipt is all there is of it, and everything without it. */
  lemma {:induction false} UpToStops(lines: seq<string>, receipt: string)
    ensures var seen := UpTo(lines, receipt);
      && seen <= lines && (!Arrived(lines, receipt) ==> seen == lines)
      && (Arrived(lines, receipt) ==>
            && seen != [] && receipt <= seen[|seen| - 1]
            && forall i :: 0 <= i < |seen| - 1 ==> !(receipt <= seen[i]))
  {
    if lines != [] && !(receipt <= lines[0]) {
      UpToStops(lines[1..], receipt);
      var seen := UpTo(lines, receipt);
      assert seen == [lines[0]] + UpTo(lines[1..], receipt);
      assert Arrived(lines[1..], receipt) <==> Arrived(lines, receipt) by {
        ArrivedLater(lines, receipt);
      }
    }
  }

  lemma ArrivedLater(lines: seq<string>, receipt: string)
    requires lines != [] && !(receipt <= lines[0])
    ensures Arrived(lines[1..], receipt) <==> Arrived(lines, receipt)
  {
    if Arrived(lines[1..], receipt) {
      var i :| 0 <= i < |lines[1..]| && receipt <= lines[1..][i];
      assert receipt <= lines[i + 1];
    }
    if Arrived(lines, receipt) {
      var i :| 0 <= i < |lines| && receipt <= lines[i];
      assert lines[i] == lines[1..][i - 1];
    }
  }

  /** The receipt may have more behind it. */
  lemma ArrivedIff(lines: seq<string>, receipt: string)
    ensures Arrived(lines, receipt) <==> exists i, more :: 0 <= i < |lines| && lines[i] == receipt + more
  {
    if Arrived(lines, receipt) {
      var i :| 0 <= i < |lines| && receipt <= lines[i];
      assert lines[i] == receipt + lines[i][|receipt|..];
    }
  }

  /** Everything heard over `n` sends, the last cut short by the reply if it came. */
  function HeardOver(heard: seq<seq<string>>, receipt: string, n: nat): seq<string>
    requires n <= |heard|
  {
    if n == 0 then [] else HeardOver(heard, receipt, n - 1) + UpTo(heard[n - 1], receipt)
  }

  /** send_until(): one id for the command, the identical line on every send, and no
      further send once a reply starting with `receipt` has come. */
  method SendUntil(s: Sequencer, line: string, receipt: string, tries: nat, heard: seq<seq<string>>)
    returns (seen: seq<string>, sent: seq<string>)
    requires |heard| >= tries
    modifies s
    ensures s.last == old(s.last) + if '#' !in line && s.IsSequenced(line) then 1 else 0
    ensures var wire := if '#' !in line && s.IsSequenced(line) then WithId(line, s.last) else line;
      forall i :: 0 <= i < |sent| ==> sent[i] == wire
    ensures |sent| <= tries && seen == HeardOver(heard, receipt, |sent|)
    ensures forall i :: 0 <= i < |sent| - 1 ==> !Arrived(heard[i], receipt)
    ensures |sent| < tries ==> |sent| > 0 && Arrived(heard[|sent| - 1], receipt)
  {
    seen, sent := [], [];
    var wire := s.Format(line, false);
    for attempt := 0 to tries
      invariant |sent| == attempt && forall i :: 0 <= i < attempt ==> sent[i] == wire
      invariant s.last == old(s.last) + if '#' !in line && s.IsSequenced(line) then 1 else 0
      invariant wire == if '#' !in line && s.IsSequenced(line) then WithId(line, s.last) else line
      invariant seen == HeardOver(heard, receipt, attempt)
      invariant forall i :: 0 <= i < attempt ==> !Arrived(heard[i], receipt)
    {
      sent := sent + [wire];
      var lines := heard[attempt];
      var done := false;
      seen, done := HearLines(seen, lines, receipt);
      if done {
        return;
      }
    }
  }

  method HearLines(before: seq<string>, lines: seq<string>, receipt: string) returns (seen: seq<string>, done: bool)
    ensures seen == before + UpTo(lines, receipt) && (done <==> Arrived(lines, receipt))
  {
    seen, done := before, false;
    for k := 0 to |lines|
      invariant seen + UpTo(lines[k..], receipt) == before + UpTo(lines, receipt)
      invariant forall i :: 0 <= i < k ==> !(receipt <= lines[i])
    {
      var rest := lines[k..];
      assert rest[0] == lines[k] && rest[1..] == lines[k + 1..];
      seen := seen + [lines[k]];
      if receipt <= lines[k] {
        return seen, true;
      }
      assert seen + UpTo(lines[k + 1..], receipt) == before + UpTo(lines, receipt);
    }
    assert lines[|lines|..] == [];
  }
}
