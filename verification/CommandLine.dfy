/** A command line as the robot takes it in: the text it keeps of what was sent, the
    tokens of that text, the bytes tokenizing leaves behind, and the sequence id it
    then reads through a pointer taken before. A character is a byte. */
module CommandLine {
  import opened Options
  import opened Texts
  import opened WireText

  const NUL := '\0'
  const LINE_BYTES: nat := 239

  // ---- the text kept of a line -----------------------------------------------------

  predicate OneLine(value: string) {
    '\n' !in value && NUL !in value
  }

  function Before(line: string, c: char): (text: string)
    ensures text <= line && c !in text && (c !in line ==> text == line)
  {
    if line == "" || line[0] == c then "" else [line[0]] + Before(line[1..], c)
  }

  /** A carriage return at the end of a line is dropped. */
  function StripReturn(line: string): (text: string)
    ensures text <= line
  {
    if line != "" && line[|line| - 1] == '\r' then line[..|line| - 1] else line
  }

  /** What the tokenizer is given of a line: the text before its newline, less a final
      carriage return, and of that the text before a NUL. An overlong line is dropped. */
  function Received(wire: string): (text: string)
    ensures OneLine(text)
    ensures OneLine(wire) ==> text == if |wire| <= LINE_BYTES then StripReturn(wire) else ""
  {
    var line := Before(wire, '\n');
    if |line| > LINE_BYTES then "" else Before(StripReturn(line), NUL)
  }

  /** A line ends at its newline, with or without a carriage return before it, which
      counts toward its length all the same; nothing after the newline is part of it. */
  lemma LineEnds(line: string, later: string)
    requires OneLine(line) && (line == "" || line[|line| - 1] != '\r')
    ensures Received(line + "\n" + later) == if |line| <= 239 then line else ""
    ensures Received(line + "\r\n" + later) == if |line| <= 238 then line else ""
  {
    BeforeIs(line, "\n" + later, '\n');
    assert line + "\n" + later == line + ("\n" + later);
    var returned := line + "\r";
    BeforeIs(returned, "\n" + later, '\n');
    assert line + "\r\n" + later == returned + ("\n" + later);
    assert StripReturn(returned) == line;
    BeforeIs(line, "", NUL);
    assert line + "" == line;
  }

  lemma {:induction false} BeforeIs(head: string, tail: string, c: char)
    requires c !in head && (tail == "" || tail[0] == c)
    ensures Before(head + tail, c) == head
  {
    if head == "" {
      assert head + tail == tail;
    } else {
      assert (head + tail)[1..] == head[1..] + tail;
      BeforeIs(head[1..], tail, c);
    }
  }

  /** A word, one space, and the rest of the line. */
  function Then(word: string, text: string): string {
    word + (" " + text)
  }

  // ---- its tokens --------------------------------------------------------------------

  predicate Escape(s: string) {
    |s| > 1 && s[0] == '\\' && s[1] == '"'
  }

  predicate Closing(s: string) {
    s != "" && s[0] == '"' && (|s| == 1 || s[1] == ' ')
  }

  /** One quoted field, its opening quote behind us: what it decodes to, and how many
      characters it took. A quote ends it only before a separator or the end. */
  function QuotedField(s: string): (r: (string, nat))
    ensures |r.0| <= r.1 <= |s| && (s != "" ==> r.1 > 0)
  {
    if s == "" then ("", 0)
    else if Escape(s) then
      var rest := QuotedField(s[2..]);
      (['"'] + rest.0, 2 + rest.1)
    else if Closing(s) then ("", 1)
    else
      var rest := QuotedField(s[1..]);
      ([s[0]] + rest.0, 1 + rest.1)
  }

  /** Characters up to the next separator. */
  function WordLength(s: string): (n: nat)
    ensures n <= |s| && (forall i :: 0 <= i < n ==> s[i] != ' ') && (n < |s| ==> s[n] == ' ')
  {
    if s == "" || s[0] == ' ' then 0 else 1 + WordLength(s[1..])
  }

  /** tokenizeLine() */
  function Tokens(line: string): seq<string> {
    if line == "" then []
    else if line[0] == ' ' then Tokens(line[1..])
    else if line[0] == '"' then
      var field := QuotedField(line[1..]);
      [field.0] + Tokens(line[1 + field.1..])
    else
      var n := WordLength(line);
      [line[..n]] + Tokens(line[n..])
  }

  // ---- what tokenizing leaves in the buffer ------------------------------------------

  /** A decoded field over the bytes it was decoded from, closed where it got shorter. */
  function LaidOver(word: string, bytes: string): (b: string)
    requires |word| <= |bytes|
    ensures |b| == |bytes|
  {
    if |word| < |bytes| then word + [NUL] + bytes[|word| + 1..] else word
  }

  /** The bytes of `s` once every token is decoded and closed in place. */
  function Tokenized(s: string): (b: string)
    ensures |b| == |s|
  {
    if s == "" then ""
    else if s[0] == ' ' then [s[0]] + Tokenized(s[1..])
    else if s[0] == '"' then
      var field := QuotedField(s[1..]);
      [s[0]] + LaidOver(field.0, s[1..1 + field.1]) + Tokenized(s[1 + field.1..])
    else
      var n := WordLength(s);
      if n == |s| then s else s[..n] + [NUL] + Tokenized(s[n + 1..])
  }

  // ---- the id -------------------------------------------------------------------------

  function TrimSpaces(s: string): (t: string)
    ensures t <= s
  {
    if s == "" || s[|s| - 1] != ' ' then s else TrimSpaces(s[..|s| - 1])
  }

  /** Where the last space-separated token of `s` begins. */
  function TokenStart(s: string): (p: nat)
    ensures p <= |s|
  {
    if s == "" || s[|s| - 1] == ' ' then |s| else TokenStart(s[..|s| - 1])
  }

  /** Where the line's last token begins; 0 when that is the verb itself. */
  function FieldStart(text: string): (p: nat)
    ensures p <= |text|
  {
    TokenStart(TrimSpaces(text))
  }

  /** A mandatory `#<digits>` within 32 bits. */
  function ParseId(t: string): Option<nat> {
    if t == "" || t[0] != '#' || t[1..] == "" || !AllDigits(t[1..]) then None
    else if Value(t[1..]) > MAX_SEQUENCE_ID then None
    else Some(Value(t[1..]))
  }

  /** The C string a pointer to `p` sees. */
  function Seen(buffer: string, p: nat): string {
    if p <= |buffer| then Before(buffer[p..], NUL) else ""
  }

  /** The id: found before the line is tokenized, read off the bytes that leaves. */
  function ReadId(text: string): Option<nat> {
    var p := FieldStart(text);
    if p == 0 then None else ParseId(Seen(Tokenized(text), p))
  }

  // ---- when the id that was appended is the id that is read ----------------------------

  /** The quoted field ends within `s`. */
  predicate Closes(s: string) {
    s != "" && if Escape(s) then Closes(s[2..]) else Closing(s) || Closes(s[1..])
  }

  /** How many bytes decoding takes out of a quoted field that `line` leaves open. */
  function Lost(line: string): nat {
    if line == "" then 0
    else if line[0] == ' ' then Lost(line[1..])
    else if line[0] == '"' then
      var field := QuotedField(line[1..]);
      if Closes(line[1..]) then Lost(line[1 + field.1..]) else field.1 - |field.0|
    else
      Lost(line[WordLength(line)..])
  }

  /** No character the tokenizer or the C string treats specially. */
  predicate Bare(token: string) {
    token != "" && forall c :: c in token ==> c != ' ' && c != '"' && c != '\\' && c != NUL
  }

  lemma EscapeStep(s: string)
    requires Escape(s)
    ensures var rest := QuotedField(s[2..]);
      QuotedField(s) == (['"'] + rest.0, 2 + rest.1) && (Closes(s) <==> Closes(s[2..]))
  {}

  lemma ClosingStep(s: string)
    requires Closing(s)
    ensures QuotedField(s) == ("", 1) && Closes(s)
  {}

  lemma PlainStep(s: string)
    requires s != "" && !Escape(s) && !Closing(s)
    ensures var rest := QuotedField(s[1..]);
      QuotedField(s) == ([s[0]] + rest.0, 1 + rest.1) && (Closes(s) <==> Closes(s[1..]))
  {}

  lemma EndStep()
    ensures QuotedField("") == ("", 0) && !Closes("")
  {}

  lemma {:induction false} OpenField(u: string)
    requires '"' !in u && '\\' !in u
    ensures QuotedField(u) == (u, |u|) && !Closes(u)
  {
    hide QuotedField, Closes;
    if u == "" {
      EndStep();
    } else {
      OpenField(u[1..]);
      PlainStep(u);
      assert [u[0]] + u[1..] == u;
    }
  }

  lemma ThenFrom(s: string, token: string, m: nat)
    requires m <= |s|
    ensures |Then(s, token)| == |s| + 1 + |token| && Then(s, token)[m..] == Then(s[m..], token)
  {}

  lemma ThenStarts(s: string, token: string)
    requires s != ""
    ensures Then(s, token) != "" && Then(s, token)[0] == s[0]
  {}

  lemma ThenToken(s: string, token: string)
    ensures |Then(s, token)| == |s| + 1 + |token| && Then(s, token)[|s| + 1..] == token
    ensures Then(s, token)[|s|..] == Then("", token)
  {}

  lemma ThenAfter(c: char, word: string, token: string)
    ensures [c] + Then(word, token) == Then([c] + word, token)
  {
    assert [c] + (word + (" " + token)) == [c] + word + (" " + token);
  }

  /** A field closes or stays open in `s`, whatever bare token follows. */
  lemma {:induction false} FieldBefore(s: string, token: string)
    requires Bare(token)
    ensures var t := Then(s, token); var field := QuotedField(s);
      if Closes(s) then QuotedField(t) == field
      else field.1 == |s| && QuotedField(t) == (Then(field.0, token), |t|)
  {
    var t := Then(s, token);
    hide QuotedField, Closes;
    if s == "" {
      EndStep();
      assert '"' !in t && '\\' !in t;
      OpenField(t);
    } else if Escape(s) {
      EscapeStep(s);
      EscapeStep(t);
      FieldBefore(s[2..], token);
      ThenFrom(s, token, 2);
      ThenAfter('"', QuotedField(s[2..]).0, token);
    } else if Closing(s) {
      ClosingStep(s);
      ClosingStep(t);
    } else {
      PlainStep(s);
      PlainStep(t);
      FieldBefore(s[1..], token);
      ThenFrom(s, token, 1);
      ThenAfter(s[0], QuotedField(s[1..]).0, token);
    }
  }

  /** What is left of a bare token `lost` bytes short of where it stood. */
  function Shifted(lost: nat, token: string): string {
    if 0 < lost <= |token| then token[lost..] else token
  }

  lemma SeenAfter(head: string, b: string, k: nat)
    requires k <= |b|
    ensures Seen(head + b, |head| + k) == Seen(b, k)
  {
    assert (head + b)[|head| + k..] == b[k..];
  }

  /** A field shorter than the bytes it came from, and a token behind it, over both. */
  lemma LaidOverToken(word: string, s: string, token: string)
    requires |word| <= |s| && Bare(token)
    ensures |Then(word, token)| <= |Then(s, token)|
    ensures Seen(LaidOver(Then(word, token), Then(s, token)), |s| + 1) == Shifted(|s| - |word|, token)
  {
    var all, t, lost := Then(word, token), Then(s, token), |s| - |word|;
    hide *;
    NoNulInBare(token);
    ShiftedIs(lost, token);
    ThenToken(word, token);
    ThenToken(s, token);
    if lost == 0 || lost > |token| {
      LaidOverFar(all, t, |s| + 1);
      EndsHere(LaidOver(all, t), |s| + 1, token);
    } else {
      LaidOverNear(all, t, |word| + 1, lost);
      EndsShort(LaidOver(all, t), |s| + 1, token, lost, t[|all| + 1..]);
    }
  }

  lemma NoNulInBare(token: string)
    requires Bare(token)
    ensures NUL !in token
  {}

  lemma ShiftedIs(lost: nat, token: string)
    ensures Shifted(lost, token) == if 0 < lost <= |token| then token[lost..] else token
  {}

  lemma EndsHere(b: string, p: nat, token: string)
    requires p <= |b| && b[p..] == token && NUL !in token
    ensures Seen(b, p) == token
  {
    assert b[p..] == token + "";
    BeforeIs(token, "", NUL);
  }

  lemma EndsShort(b: string, p: nat, token: string, lost: nat, rest: string)
    requires lost <= |token| && p <= |b| && b[p..] == token[lost..] + ([NUL] + rest) && NUL !in token
    ensures Seen(b, p) == token[lost..]
  {
    BeforeIs(token[lost..], [NUL] + rest, NUL);
  }

  lemma LaidOverFar(all: string, t: string, p: nat)
    requires |all| <= |t| && p <= |t| && (|all| < p || |all| == |t|)
    ensures LaidOver(all, t)[p..] == if |all| == |t| then all[p..] else t[p..]
  {}

  lemma LaidOverNear(all: string, t: string, p: nat, lost: nat)
    requires |all| < |t| && p + lost <= |all|
    ensures LaidOver(all, t)[p + lost..] == all[p..][lost..] + ([NUL] + t[|all| + 1..])
  {
    var tail := [NUL] + t[|all| + 1..];
    assert LaidOver(all, t) == all + tail;
    assert (all + tail)[p + lost..] == all[p + lost..] + tail;
  }

  lemma TokenizedNothing()
    ensures Tokenized("") == ""
  {}

  lemma TokenizedSpace(s: string)
    requires s != "" && s[0] == ' '
    ensures Tokenized(s) == [s[0]] + Tokenized(s[1..])
  {}

  lemma TokenizedField(s: string)
    requires s != "" && s[0] == '"'
    ensures var field := QuotedField(s[1..]);
      Tokenized(s) == [s[0]] + LaidOver(field.0, s[1..1 + field.1]) + Tokenized(s[1 + field.1..])
  {}

  lemma TokenizedOpen(s: string)
    requires s != "" && s[0] == '"' && QuotedField(s[1..]).1 == |s| - 1
    ensures Tokenized(s) == [s[0]] + LaidOver(QuotedField(s[1..]).0, s[1..])
  {
    hide *;
    assert s[1..|s|] == s[1..] && s[|s|..] == "";
    TokenizedNothing();
    TokenizedField(s);
    assert Tokenized(s) == [s[0]] + LaidOver(QuotedField(s[1..]).0, s[1..]) + "";
  }

  lemma TokenizedWord(s: string)
    requires s != "" && s[0] != '"' && s[0] != ' '
    ensures var n := WordLength(s);
      n > 0 && Tokenized(s) == if n == |s| then s else s[..n] + [NUL] + Tokenized(s[n + 1..])
  {}

  /** What the pointer to a bare last token reads, after tokenizing. */
  lemma {:induction false} TokenSeen(s: string, token: string)
    requires Bare(token)
    ensures Seen(Tokenized(Then(s, token)), |s| + 1) == Shifted(Lost(s), token)
    decreases |s|
  {
    hide *;
    if s == "" {
      SeenAlone(token);
    } else if s[0] == ' ' {
      TokenSeen(s[1..], token);
      SeenPastSpace(s, token);
    } else if s[0] == '"' {
      if Closes(s[1..]) {
        SeenPastClosed(s, token);
        TokenSeen(s[1 + QuotedField(s[1..]).1..], token);
      } else {
        SeenInOpen(s, token);
      }
    } else {
      SeenPastWord(s, token);
      if WordLength(s) < |s| {
        TokenSeen(s[WordLength(s) + 1..], token);
      }
    }
  }

  lemma AlonePlain(token: string)
    requires Bare(token)
    ensures Tokenized(token) == token && Seen(token, 0) == token
  {
    assert ' ' !in token && token[0] in token;
    assert WordLength(token) == |token|;
    assert token[0..] == token;
  }

  lemma SeenAlone(token: string)
    requires Bare(token)
    ensures Seen(Tokenized(Then("", token)), 1) == token == Shifted(Lost(""), token)
  {
    var t := Then("", token);
    assert t[0] == ' ' && t[1..] == token;
    assert Shifted(Lost(""), token) == token;
    hide *;
    AlonePlain(token);
    TokenizedSpace(t);
    SeenAfter([t[0]], token, 0);
  }

  lemma SeenPastSpace(s: string, token: string)
    requires s != "" && s[0] == ' '
    ensures Seen(Tokenized(Then(s, token)), |s| + 1) == Seen(Tokenized(Then(s[1..], token)), |s|)
    ensures Lost(s) == Lost(s[1..])
  {
    hide *;
    ThenFrom(s, token, 1);
    ThenStarts(s, token);
    TokenizedSpace(Then(s, token));
    LostPastSpace(s);
    SeenAfter([s[0]], Tokenized(Then(s[1..], token)), |s|);
  }

  /** Past any head the tokenizer has dealt with, the rest is seen as it would be alone. */
  lemma SeenPast(s: string, token: string, m: nat, head: string)
    requires m <= |s| && |head| == m && Tokenized(Then(s, token)) == head + Tokenized(Then(s, token)[m..])
    ensures Seen(Tokenized(Then(s, token)), |s| + 1) == Seen(Tokenized(Then(s[m..], token)), |s| - m + 1)
  {
    hide *;
    ThenFrom(s, token, m);
    ThenFrom(s[m..], token, 0);
    SeenAfter(head, Tokenized(Then(s[m..], token)), |s| - m + 1);
  }

  lemma SeenPastClosed(s: string, token: string)
    requires Bare(token) && s != "" && s[0] == '"' && Closes(s[1..])
    ensures var rest := s[1 + QuotedField(s[1..]).1..];
      && Seen(Tokenized(Then(s, token)), |s| + 1) == Seen(Tokenized(Then(rest, token)), |rest| + 1)
      && Lost(s) == Lost(rest)
  {
    hide *;
    var t, inner := Then(s, token), s[1..];
    ThenFrom(s, token, 1);
    ThenStarts(s, token);
    FieldBefore(inner, token);
    TokenizedField(t);
    LostPastClosed(s);
    var n := QuotedField(inner).1;
    SeenPast(s, token, 1 + n, [t[0]] + LaidOver(QuotedField(inner).0, t[1..1 + n]));
  }

  lemma LostPastSpace(s: string)
    requires s != "" && s[0] == ' '
    ensures Lost(s) == Lost(s[1..])
  {}

  lemma LostInOpen(s: string)
    requires s != "" && s[0] == '"' && !Closes(s[1..])
    ensures Lost(s) == QuotedField(s[1..]).1 - |QuotedField(s[1..]).0|
  {}

  lemma NothingLost(token: string)
    ensures Shifted(0, token) == token
  {}

  lemma LostPastClosed(s: string)
    requires s != "" && s[0] == '"' && Closes(s[1..])
    ensures Lost(s) == Lost(s[1 + QuotedField(s[1..]).1..])
  {}

  lemma SeenInOpen(s: string, token: string)
    requires Bare(token) && s != "" && s[0] == '"' && !Closes(s[1..])
    ensures Seen(Tokenized(Then(s, token)), |s| + 1) == Shifted(Lost(s), token)
  {
    hide *;
    var t, inner := Then(s, token), s[1..];
    ThenFrom(s, token, 1);
    ThenStarts(s, token);
    FieldBefore(inner, token);
    LostInOpen(s);
    TokenizedOpen(t);
    LaidOverToken(QuotedField(inner).0, inner, token);
    ThenFrom(inner, token, 0);
    SeenAfter([t[0]], LaidOver(QuotedField(t[1..]).0, t[1..]), |inner| + 1);
  }

  lemma WordThen(s: string, token: string)
    requires s != "" && s[0] != '"' && s[0] != ' '
    ensures WordLength(Then(s, token)) == WordLength(s)
  {
    var n := WordLength(s);
    var after := s[n..] + (" " + token);
    assert Then(s, token) == s[..n] + after;
    WordRun(s[..n], after);
  }

  lemma SeenPastWord(s: string, token: string)
    requires Bare(token) && s != "" && s[0] != '"' && s[0] != ' '
    ensures var n := WordLength(s);
      if n < |s|
      then Seen(Tokenized(Then(s, token)), |s| + 1) == Seen(Tokenized(Then(s[n + 1..], token)), |s| - n)
        && Lost(s) == Lost(s[n + 1..])
      else Seen(Tokenized(Then(s, token)), |s| + 1) == Shifted(Lost(s), token)
  {
    hide *;
    var t := Then(s, token);
    ThenStarts(s, token);
    WordThen(s, token);
    TokenizedWord(t);
    ThenToken(s, token);
    LostPastWord(s);
    var n := WordLength(s);
    if n < |s| {
      SeenPast(s, token, n + 1, t[..n] + [NUL]);
    } else {
      AlonePlain(token);
      NothingLost(token);
      SeenAfter(t[..n] + [NUL], token, 0);
    }
  }

  lemma LostPastWord(s: string)
    requires s != "" && s[0] != '"' && s[0] != ' '
    ensures var n := WordLength(s); Lost(s) == if n < |s| then Lost(s[n + 1..]) else 0
  {
    var n := WordLength(s);
    hide WordLength;
    if n < |s| {
      assert s[n..][1..] == s[n + 1..];
    } else {
      assert s[n..] == "";
    }
  }

  lemma {:induction false} TokenAfterSpace(line: string, token: string)
    requires ' ' !in token
    ensures TokenStart(line + " " + token) == |line| + 1
  {
    var s := line + " " + token;
    if token == "" {
      assert s == line + " " && s[|s| - 1] == ' ';
    } else {
      assert s[|s| - 1] == token[|token| - 1] && token[|token| - 1] in token;
      assert s[..|s| - 1] == line + " " + token[..|token| - 1];
      TokenAfterSpace(line, token[..|token| - 1]);
    }
  }

  lemma LastFieldStart(line: string, token: string)
    requires token != "" && ' ' !in token
    ensures FieldStart(Then(line, token)) == |line| + 1
  {
    var s := line + " " + token;
    assert s == Then(line, token);
    assert s[|s| - 1] == token[|token| - 1] && token[|token| - 1] in token;
    assert TrimSpaces(s) == s;
    TokenAfterSpace(line, token);
  }

  lemma SignedIsBare(id: int)
    ensures Bare("#" + Signed(id)) && '\r' !in Signed(id) && '\n' !in Signed(id)
  {
    var token := "#" + Signed(id);
    assert forall i :: 0 <= i < |token| ==> IsDigit(token[i]) || token[i] == '#' || token[i] == '-';
  }

  lemma ParseSigned(id: int)
    ensures ParseId("#" + Signed(id)) == if 0 <= id <= MAX_SEQUENCE_ID then Some(id) else None
  {
    var token := "#" + Signed(id);
    assert token[1..] == Signed(id);
    if id < 0 {
      assert token[1..][0] == '-';
    } else {
      ValueOfDecimal(id);
    }
  }

  lemma ShiftedIsNoId(lost: nat, id: int)
    requires 0 < lost <= |"#" + Signed(id)|
    ensures ParseId(Shifted(lost, "#" + Signed(id))) == None
  {
    var token := "#" + Signed(id);
    assert lost < |token| ==> token[lost..][0] == Signed(id)[lost - 1] != '#';
  }

  /** The id's own bytes: not shifted by an open field, nor shifted past. */
  predicate IdStands(line: string, id: int) {
    !(0 < Lost(line) <= |"#" + Signed(id)|)
  }

  lemma ReceivedWithId(line: string, id: int)
    requires OneLine(line)
    ensures Received(WithId(line, id)) == if |WithId(line, id)| <= LINE_BYTES then WithId(line, id) else ""
  {
    var wire := WithId(line, id);
    SignedIsBare(id);
    assert wire[|wire| - 1] == Signed(id)[|Signed(id)| - 1] != '\r';
    assert OneLine(" #") && OneLine(Signed(id));
  }

  /** The robot reads back the id that was appended to a line exactly when it is an id,
      it has no more than 239 bytes, and it leaves no quoted field open that decoding
      shortens by as many bytes as the id's token has, or fewer. */
  lemma IdReadsBackIff(line: string, id: int)
    requires OneLine(line)
    ensures ReadId(Received(WithId(line, id))) ==
      if 0 <= id <= 0xFFFFFFFF && |WithId(line, id)| <= 239 && IdStands(line, id) then Some(id) else None
  {
    hide *;
    Limits();
    ReceivedWithId(line, id);
    WithIdIs(line, id);
    IdRead(line, id);
    NoIdInNothing();
  }

  lemma Limits()
    ensures LINE_BYTES == 239 && MAX_SEQUENCE_ID == 0xFFFFFFFF
  {}

  lemma WithIdIs(line: string, id: int)
    ensures WithId(line, id) == Then(line, "#" + Signed(id))
  {}

  lemma NoIdInNothing()
    ensures ReadId("") == None
  {
    assert FieldStart("") == 0;
  }

  lemma IdRead(line: string, id: int)
    ensures ReadId(Then(line, "#" + Signed(id))) ==
      if 0 <= id <= MAX_SEQUENCE_ID && IdStands(line, id) then Some(id) else None
  {
    var token := "#" + Signed(id);
    var text := Then(line, token);
    SignedIsBare(id);
    LastFieldStart(line, token);
    assert ReadId(text) == ParseId(Seen(Tokenized(text), |line| + 1));
    hide *;
    TokenSeen(line, token);
    ParseSigned(id);
    NothingLost(token);
    IdShifted(line, id);
  }

  lemma IdShifted(line: string, id: int)
    ensures if IdStands(line, id) then Shifted(Lost(line), "#" + Signed(id)) == "#" + Signed(id)
            else ParseId(Shifted(Lost(line), "#" + Signed(id))) == None
  {
    hide Lost, ParseId, Signed;
    if !IdStands(line, id) {
      ShiftedIsNoId(Lost(line), id);
    }
  }

  /** The last token has the appended one in it; alone, it shows that nothing was lost. */
  lemma {:induction false} ApartLosesNothing(s: string, token: string)
    requires token != "" && Bare(token)
    ensures var all := Tokens(Then(s, token));
      all != [] && token[0] in all[|all| - 1] && (' ' !in all[|all| - 1] ==> Lost(s) == 0)
    decreases |s|
  {
    hide *;
    var t := Then(s, token);
    if s == "" {
      AloneApart(token);
    } else if s[0] == ' ' {
      ThenFrom(s, token, 1);
      ThenStarts(s, token);
      SpaceStep(t);
      LostPastSpace(s);
      ApartLosesNothing(s[1..], token);
    } else if s[0] == '"' {
      var inner := s[1..];
      var n := QuotedField(inner).1;
      ThenFrom(s, token, 1);
      ThenStarts(s, token);
      FieldBefore(inner, token);
      FieldStep(t);
      if Closes(inner) {
        ThenFrom(s, token, 1 + n);
        LostPastClosed(s);
        ApartLosesNothing(s[1 + n..], token);
      } else {
        ThenFrom(inner, token, 0);
        NothingFollows(t);
        SpaceInside(QuotedField(inner).0, token);
      }
    } else {
      var n := WordLength(s);
      ThenStarts(s, token);
      WordThen(s, token);
      WordStep(t);
      ThenFrom(s, token, n);
      LostPastWord(s);
      if n < |s| {
        ThenFrom(s, token, n + 1);
        SpaceStep(t[n..]);
        assert t[n..][1..] == t[n + 1..];
        ThenStarts(s[n..], token);
        ApartLosesNothing(s[n + 1..], token);
      } else {
        assert s[n..] == "";
        AloneApart(token);
      }
    }
  }

  lemma AloneApart(token: string)
    requires Bare(token)
    ensures Tokens(Then("", token)) == [token] && Lost("") == 0
  {
    assert ' ' !in token && '"' !in token;
    OneWord(token);
    AfterSeparator(token);
    assert Then("", token) == " " + token;
  }

  lemma SpaceInside(word: string, token: string)
    requires token != ""
    ensures ' ' in Then(word, token) && token[0] in Then(word, token)
  {
    assert Then(word, token)[|word|] == ' ' && Then(word, token)[|word| + 1] == token[0];
  }

  lemma NothingFollows(t: string)
    ensures t[|t|..] == "" && Tokens("") == []
  {}

  lemma SpaceStep(s: string)
    requires s != "" && s[0] == ' '
    ensures Tokens(s) == Tokens(s[1..])
  {}

  lemma FieldStep(s: string)
    requires s != "" && s[0] == '"'
    ensures var field := QuotedField(s[1..]); Tokens(s) == [field.0] + Tokens(s[1 + field.1..])
  {}

  lemma WordStep(s: string)
    requires s != "" && s[0] != '"' && s[0] != ' '
    ensures var n := WordLength(s); n > 0 && Tokens(s) == [s[..n]] + Tokens(s[n..])
  {}

  /** The smallest line whose id goes unread: the field stays open, and its one escape
      moves the number onto the `#`. */
  lemma OpenEscapeLosesTheId()
    ensures ReadId(Received(WithId("RUN \"a\\\"b", 7))) == None
  {
    var line := "RUN \"a\\\"b";
    hide WithId, Received, ReadId, Lost, Decimal;
    LostByOne();
    IdReadsBackIff(line, 7);
  }

  lemma LostByOne()
    ensures Lost("RUN \"a\\\"b") == 1
  {
    var line, rest := "RUN \"a\\\"b", "\"a\\\"b";
    assert line == "RUN" + (" " + rest) && line[4..] == rest && rest[1..] == "a\\\"b";
    hide WordLength, QuotedField, Closes;
    WordRun("RUN", " " + rest);
    LostPastWord(line);
    EscapeKeepsOpen();
    LostInOpen(rest);
  }

  lemma EscapeKeepsOpen()
    ensures QuotedField("a\\\"b") == ("a\"b", 4) && !Closes("a\\\"b")
  {
    var s := "a\\\"b";
    assert s[1..] == "\\\"b" && s[1..][2..] == "b";
    OpenField("b");
    EscapeStep(s[1..]);
    PlainStep(s);
    hide QuotedField, Closes;
    assert ['"'] + "b" == "\"b" && ['a'] + "\"b" == "a\"b";
  }

  /** A bare verb with an id on it is read as it was meant. */
  lemma PlainCommand(verb: string, id: nat)
    requires Bare(verb) && OneLine(verb) && |verb| <= 200 && id <= MAX_SEQUENCE_ID
    ensures var text := Received(WithId(verb, id)); Tokens(text) == [verb, "#" + Signed(id)] && ReadId(text) == Some(id)
  {
    hide *;
    Limits();
    ShortLine(verb, id);
    WithIdIs(verb, id);
    BareIsPlain(verb);
    HashWordReadsBack(id);
    LeadingWord(verb, "#" + Signed(id));
    SignedIsBare(id);
    ApartLosesNothing(verb, "#" + Signed(id));
    NoSpaceInId(id);
    NothingLostStands(verb, id);
    ReceivedWithId(verb, id);
    IdReadsBackIff(verb, id);
  }

  lemma NothingLostStands(line: string, id: int)
    requires Lost(line) == 0
    ensures IdStands(line, id)
  {}

  lemma NoSpaceInId(id: int)
    ensures ' ' !in "#" + Signed(id)
  {
    SignedIsBare(id);
  }

  lemma BareIsPlain(verb: string)
    requires Bare(verb)
    ensures verb != "" && !NeedsQuotes(verb)
  {}

  lemma ShortLine(verb: string, id: nat)
    requires |verb| <= 200 && id <= MAX_SEQUENCE_ID
    ensures |WithId(verb, id)| <= LINE_BYTES
  {
    ShortId(id);
  }

  lemma ShortId(id: nat)
    requires id <= MAX_SEQUENCE_ID
    ensures |Decimal(id)| <= 10
  {
    TenDigits();
    hide *;
    DecimalLength(id, 10);
  }

  lemma TenDigits()
    ensures MAX_SEQUENCE_ID < Tens(10)
  {
    assert Tens(2) == 100;
    assert Tens(4) == 10000;
    assert Tens(6) == 1000000;
    assert Tens(8) == 100000000;
  }

  // ---- tokens back from what was joined -----------------------------------------------

  lemma {:induction false} FieldMakesNothingUp(c: char, s: string)
    requires c !in s
    ensures c !in QuotedField(s).0
  {
    if s == "" {
    } else if |s| > 1 && s[0] == '\\' && s[1] == '"' {
      FieldMakesNothingUp(c, s[2..]);
    } else if !(s[0] == '"' && (|s| == 1 || s[1] == ' ')) {
      FieldMakesNothingUp(c, s[1..]);
    }
  }

  lemma {:induction false} TokensMakeNothingUp(c: char, line: string)
    requires c !in line
    ensures forall i :: 0 <= i < |Tokens(line)| ==> c !in Tokens(line)[i]
    decreases |line|
  {
    if line == "" {
    } else if line[0] == ' ' {
      TokensMakeNothingUp(c, line[1..]);
    } else if line[0] == '"' {
      var field := QuotedField(line[1..]);
      FieldMakesNothingUp(c, line[1..]);
      TokensMakeNothingUp(c, line[1 + field.1..]);
    } else {
      TokensMakeNothingUp(c, line[WordLength(line)..]);
    }
  }

  predicate NeedsQuotes(value: string) {
    ' ' in value || '"' in value
  }

  /** What may follow a field on the line. */
  predicate Separated(rest: string) {
    rest == "" || rest[0] == ' '
  }

  lemma {:induction false} WordRun(word: string, rest: string)
    requires ' ' !in word && Separated(rest)
    ensures WordLength(word + rest) == |word|
  {
    if word == "" {
      assert word + rest == rest;
    } else {
      assert (word + rest)[1..] == word[1..] + rest;
      WordRun(word[1..], rest);
    }
  }

  lemma PlainWordReadsBack(word: string, rest: string)
    requires word != "" && !NeedsQuotes(word) && Separated(rest)
    ensures Tokens(word + rest) == [word] + Tokens(rest)
  {
    WordRun(word, rest);
    var line := word + rest;
    assert line[..|word|] == word && line[|word|..] == rest;
  }

  lemma OneWord(word: string)
    requires word != "" && !NeedsQuotes(word)
    ensures Tokens(word) == [word]
  {
    PlainWordReadsBack(word, "");
    assert word + "" == word;
  }

  lemma AfterSeparator(text: string)
    ensures Tokens(" " + text) == Tokens(text)
  {
    assert (" " + text)[1..] == text;
  }

  lemma LeadingWord(word: string, text: string)
    requires word != "" && !NeedsQuotes(word)
    ensures Tokens(Then(word, text)) == [word] + Tokens(text)
  {
    PlainWordReadsBack(word, " " + text);
    AfterSeparator(text);
    hide Tokens;
  }

  lemma HashWordReadsBack(id: int)
    ensures Tokens("#" + Signed(id)) == ["#" + Signed(id)]
  {
    var word := "#" + Signed(id);
    SignedIsBare(id);
    assert ' ' !in word && '"' !in word;
    OneWord(word);
  }
}
