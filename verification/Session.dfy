/** A whole session of the sequenced protocol: a host allocating ids, a channel
    that loses, delays, repeats and reorders lines, and the robot's reliability
    layer. Only the lines themselves are trusted: the robot knows nothing but
    the verb and the id it reads off the text. */
module Session {
  import opened CommandLine
  import opened Options
  import opened Texts
  import opened WireText

  // ---- the robot ------------------------------------------------------------------

  datatype Robot = Robot(expectedNext: nat, gap: bool)

  const FRESH_ROBOT: Robot := Robot(1, false)

  datatype Response = Response(robot: Robot, replies: seq<Reply>, executed: bool)

  /** What the adapter makes of a command it is handed; it never answers kNotReady. */
  datatype Result = Done | Unknown | BadArg | Range | Full | Unimplemented | Busy | WriteOnly

  function ResultCode(r: Result): nat {
    match r
    case Done => 0
    case Unknown => 1
    case BadArg => 2
    case Range => 3
    case Full => 4
    case Unimplemented => 6
    case Busy => 10
    case WriteOnly => 12
  }

  /** The codes an err line can carry. */
  const ERR_CODES: set<nat> := {1, 2, 3, 4, 6, 10, 12}

  datatype Decoding = Decoded(result: Result) | UnknownVerb | BadFields

  /** How the fields of a verb the robot knows decode. */
  type Fields = d: Decoding | !d.UnknownVerb? witness BadFields

  /** The sequenced rows of the command table. */
  const COMMANDS: set<string> :=
    {"GET", "SET", "TLM", "WHEELS_X", "WHEELS_V", "MOVE_X", "MOVE_V", "GO_TO_R", "GO_TO_W",
     "STOP", "FUNCS", "RUN", "WIFICRED"}

  /** Verbs answered outside the sequence, whatever follows them. */
  const QUERIES: set<string> := {"PING", "HELP", "ID", "VER", "STATUS"}

  function DecodeFailure(r: Robot, id: nat, code: nat): Response {
    Response(r.(gap := true), [Nack(r.expectedNext), Err(code, id)], false)
  }

  /** dispatch()'s sequenced plane: one inbound line with this id (or none). */
  function Dispatch(r: Robot, id: Option<nat>, line: Decoding): Response {
    match id
    case None => Response(r, if line.UnknownVerb? then [] else [Nack(r.expectedNext)], false)
    case Some(n) =>
      if n == 0 then Response(r, [Nack(r.expectedNext)], false)
      else if n == MAX_SEQUENCE_ID then DecodeFailure(r, n, ResultCode(Range))
      else if n < r.expectedNext then Response(r, [Ack(r.expectedNext - 1)], false)
      else if n > r.expectedNext then Response(r.(gap := true), [Nack(r.expectedNext)], false)
      else
        match line
        case UnknownVerb => DecodeFailure(r, n, ResultCode(Unknown))
        case BadFields => DecodeFailure(r, n, ResultCode(BadArg))
        case Decoded(result) =>
          var refusal := if result == Done then [] else [Err(ResultCode(result), n)];
          Response(Robot(n + 1, false), [Ack(n)] + refusal, true)
  }

  /** An unsequenced query's reminder. */
  function Remind(r: Robot): Response {
    Response(r, if r.gap then [Nack(r.expectedNext)] else [], false)
  }

  /** What the robot hears of a wire: its tokens, and its id. */
  function Heard(wire: string): seq<string> {
    Tokens(Received(wire))
  }

  function IdOf(wire: string): Option<nat> {
    ReadId(Received(wire))
  }

  /** The line that starts a session over. */
  predicate IsHello(wire: string) {
    Heard(wire) == ["HELLO"]
  }

  /** A reply overheard, or a word that is answered with no reply modelled here. */
  predicate Passed(verb: string) {
    verb == "ESTOP" || (verb != "" && 'a' <= verb[0] <= 'z')
  }

  /** dispatch(): the whole of one inbound line. */
  function Respond(r: Robot, wire: string, fields: Fields): Response {
    var words := Heard(wire);
    if words == [] || Passed(words[0]) then Response(r, [], false)
    else if words[0] in QUERIES then Remind(r)
    else if words[0] == "HELLO" then Response(if IsHello(wire) then FRESH_ROBOT else r, [], false)
    else Dispatch(r, IdOf(wire), if words[0] in COMMANDS then fields else UnknownVerb)
  }

  /** A line the robot executes once its id is the next. */
  predicate Live(wire: string) {
    Heard(wire) != [] && Heard(wire)[0] in COMMANDS &&
    match IdOf(wire)
    case None => false
    case Some(n) => 0 < n < MAX_SEQUENCE_ID
  }

  /** A live line under the id `k`. */
  predicate LiveAs(wire: string, k: nat) {
    Live(wire) && IdOf(wire) == Some(k)
  }

  /** Whatever line provoked it, an ack or nack read live puts the host's next
      allocation on exactly the id the robot expects. */
  lemma LiveReplyResyncs(r: Robot, wire: string, fields: Fields, reply: Reply)
    requires reply in Respond(r, wire, fields).replies && !reply.Err?
    ensures Observed(reply) + 1 == Respond(r, wire, fields).robot.expectedNext
  {
    hide Heard, IdOf, Passed;
    assert reply in Remind(r).replies ==> Remind(r).replies == [Nack(r.expectedNext)];
  }

  lemma DispatchMoves(r: Robot, id: Option<nat>, line: Decoding)
    requires r.expectedNext > 0
    ensures var q := Dispatch(r, id, line);
      (q.executed <==> id == Some(r.expectedNext) && r.expectedNext != MAX_SEQUENCE_ID && line.Decoded?) &&
      q.robot.expectedNext == (if q.executed then r.expectedNext + 1 else r.expectedNext)
  {}

  lemma VerbsApart(verb: string)
    requires verb in COMMANDS
    ensures verb !in QUERIES && verb != "HELLO" && !Passed(verb)
  {}

  /** A line executes exactly when it is live, carries the next id and decodes; the
      counter moves exactly then, and starts over exactly at a HELLO. */
  lemma ExecutesIffNext(r: Robot, wire: string, fields: Fields)
    requires r.expectedNext > 0
    ensures var q := Respond(r, wire, fields);
      && (q.executed <==> LiveAs(wire, r.expectedNext) && fields.Decoded?)
      && q.robot.expectedNext ==
           (if IsHello(wire) then 1 else if q.executed then r.expectedNext + 1 else r.expectedNext)
  {
    var words := Heard(wire);
    if words != [] {
      DispatchMoves(r, IdOf(wire), if words[0] in COMMANDS then fields else UnknownVerb);
      if words[0] in COMMANDS {
        VerbsApart(words[0]);
      }
      HelloIsNoOther(words[0]);
    }
    hide Heard, IdOf, Passed, Dispatch, COMMANDS, QUERIES;
  }

  lemma HelloIsNoOther(verb: string)
    ensures verb == "HELLO" ==> verb !in COMMANDS && verb !in QUERIES && !Passed(verb)
  {}

  lemma CommandIsDispatched(r: Robot, wire: string, fields: Fields)
    requires Heard(wire) != [] && Heard(wire)[0] in COMMANDS
    ensures Respond(r, wire, fields) == Dispatch(r, IdOf(wire), fields)
  {
    hide Heard, IdOf, Passed, COMMANDS, QUERIES, Dispatch;
    VerbsApart(Heard(wire)[0]);
  }

  /** The answer to a command with this id, or none, by a robot that expects `e`. */
  ghost predicate Answers(q: Response, e: nat, id: Option<nat>, fields: Fields) {
    match id
    // no id: the robot says which one it wants
    case None => q.replies == [Nack(e)]
    case Some(n) =>
      // so it does for #0
      if n == 0 then q.replies == [Nack(e)]
      // the ceiling is refused as out of range
      else if n == 0xFFFFFFFF then q.replies == [Nack(e), Err(3, n)]
      // a resend of what it has: the last id it took is stated again
      else if n < e then q.replies == [Ack(e - 1)]
      // a gap: the id it wants
      else if n > e then q.replies == [Nack(e)]
      // the one expected: acked and taken, with an err if refused, or nacked with an err
      else match fields
        case Decoded(result) => q.replies == [Ack(e)] + if result == Done then [] else [Err(ResultCode(result), e)]
        case BadFields => q.replies == [Nack(e), Err(2, e)]
  }

  /** What becomes of the robot: a gap is noted at a later id and at a broken command,
      cleared by the command expected, and left alone otherwise. */
  ghost predicate Becomes(q: Robot, r: Robot, id: Option<nat>, fields: Fields) {
    var e := r.expectedNext;
    if id == Some(e) && e < 0xFFFFFFFF && fields.Decoded? then q == Robot(e + 1, false)
    else if id.Some? && id.value >= e then q == Robot(e, true)
    else q == r
  }

  lemma DispatchAnswers(r: Robot, id: Option<nat>, fields: Fields)
    requires 0 < r.expectedNext <= MAX_SEQUENCE_ID && (id.Some? ==> id.value <= MAX_SEQUENCE_ID)
    ensures Answers(Dispatch(r, id, fields), r.expectedNext, id, fields)
    ensures Becomes(Dispatch(r, id, fields).robot, r, id, fields)
  {}

  lemma IdsAreBounded(wire: string)
    ensures IdOf(wire).Some? ==> IdOf(wire).value <= MAX_SEQUENCE_ID
  {}

  /** What a line with a sequenced verb is answered with, and what it leaves of the robot. */
  lemma CommandIsAnswered(r: Robot, wire: string, fields: Fields)
    requires Heard(wire) != [] && Heard(wire)[0] in COMMANDS && 0 < r.expectedNext <= MAX_SEQUENCE_ID
    ensures Answers(Respond(r, wire, fields), r.expectedNext, IdOf(wire), fields)
    ensures Becomes(Respond(r, wire, fields).robot, r, IdOf(wire), fields)
  {
    hide *;
    IdsAreBounded(wire);
    CommandIsDispatched(r, wire, fields);
    DispatchAnswers(r, IdOf(wire), fields);
  }

  /** A verb the robot does not know is passed over without an id it could use, and taken
      for a broken command with the next one. */
  lemma StrangerIsAnswered(r: Robot, wire: string, fields: Fields)
    requires Heard(wire) != [] && 0 < r.expectedNext < MAX_SEQUENCE_ID
    requires var verb := Heard(wire)[0];
      verb !in COMMANDS && verb !in QUERIES && verb != "HELLO" && !Passed(verb)
    ensures IdOf(wire) == None ==> Respond(r, wire, fields) == Response(r, [], false)
    ensures IdOf(wire) == Some(r.expectedNext) ==>
      Respond(r, wire, fields)
        == Response(Robot(r.expectedNext, true), [Nack(r.expectedNext), Err(1, r.expectedNext)], false)
  {
    hide Heard, IdOf, Passed, COMMANDS, QUERIES;
  }

  /** What the host's own tables say of the verbs: those it sequences are those the robot
      answers in sequence. */
  const HOST_VERBS: set<string> :=
    {"GET", "SET", "TLM", "STOP", "RUN", "FUNCS", "WIFICRED",
     "WHEELS_X", "WHEELS_V", "MOVE_X", "MOVE_V", "GO_TO_R", "GO_TO_W"}

  lemma VerbTablesAgree()
    ensures COMMANDS == HOST_VERBS
  {}

  /** The five queries are answered at any time with no more than the reminder, and change
      nothing; */
  lemma QueryIsAnswered(r: Robot, wire: string, fields: Fields)
    requires Heard(wire) != []
    requires var verb := Heard(wire)[0];
      verb == "PING" || verb == "HELP" || verb == "ID" || verb == "VER" || verb == "STATUS"
    ensures Respond(r, wire, fields) == Response(r, if r.gap then [Nack(r.expectedNext)] else [], false)
  {
    hide Heard, IdOf, COMMANDS;
  }

  /** an emergency stop, and anything in lower case, draws nothing at all; */
  lemma OverheardIsIgnored(r: Robot, wire: string, fields: Fields)
    requires Heard(wire) != []
    requires var verb := Heard(wire)[0]; verb == "ESTOP" || (verb != "" && 'a' <= verb[0] <= 'z')
    ensures Respond(r, wire, fields) == Response(r, [], false)
  {
    hide Heard, IdOf, COMMANDS, QUERIES;
  }

  /** and every other verb is sequenced, in the host's table or not. */
  lemma OthersAreSequenced(r: Robot, wire: string, fields: Fields)
    requires Heard(wire) != []
    requires var verb := Heard(wire)[0];
      && verb != "PING" && verb != "HELP" && verb != "ID" && verb != "VER" && verb != "STATUS"
      && verb != "ESTOP" && verb != "HELLO" && (verb != "" ==> !('a' <= verb[0] <= 'z'))
    ensures Respond(r, wire, fields) ==
      Dispatch(r, IdOf(wire), if Heard(wire)[0] in HOST_VERBS then fields else UnknownVerb)
  {
    VerbTablesAgree();
    hide Heard, IdOf, Dispatch, COMMANDS;
  }

  /** The robot after each of some lines. */
  function Robots(r: Robot, lines: seq<(string, Fields)>): Robot {
    if lines == [] then r
    else Respond(Robots(r, lines[..|lines| - 1]), lines[|lines| - 1].0, lines[|lines| - 1].1).robot
  }

  /** A gap is reminded of at every query, until the missing id is taken or a HELLO comes. */
  lemma {:induction false} GapIsReminded(r: Robot, lines: seq<(string, Fields)>, query: string, fields: Fields)
    requires r.gap && 0 < r.expectedNext <= MAX_SEQUENCE_ID
    requires forall i :: 0 <= i < |lines| ==> !IsHello(lines[i].0) && !LiveAs(lines[i].0, r.expectedNext)
    requires Heard(query) != [] && Heard(query)[0] in QUERIES
    ensures Robots(r, lines) == r
    ensures Respond(Robots(r, lines), query, fields) == Response(r, [Nack(r.expectedNext)], false)
  {
    if lines == [] {
      QueryIsNoOther(Heard(query)[0]);
    } else {
      var (wire, how) := lines[|lines| - 1];
      GapIsReminded(r, lines[..|lines| - 1], query, fields);
      GapStays(r, wire, how);
    }
    hide Heard, IdOf, COMMANDS, QUERIES, Passed;
  }

  lemma QueryIsNoOther(verb: string)
    requires verb in QUERIES
    ensures !Passed(verb)
  {}

  lemma GapStays(r: Robot, wire: string, fields: Fields)
    requires r.gap && 0 < r.expectedNext <= MAX_SEQUENCE_ID && !IsHello(wire) && !LiveAs(wire, r.expectedNext)
    ensures Respond(r, wire, fields).robot == r
  {
    hide Heard, IdOf, COMMANDS, QUERIES, Passed;
  }

  /** And with no gap a query draws no reminder. */
  lemma NoGapNoReminder(r: Robot, query: string, fields: Fields)
    requires !r.gap && Heard(query) != [] && Heard(query)[0] in QUERIES
    ensures Respond(r, query, fields) == Response(r, [], false)
  {
    QueryIsNoOther(Heard(query)[0]);
    hide Heard, COMMANDS, QUERIES, Passed;
  }

  // ---- the session ------------------------------------------------------------------

  datatype State = State(
    counter: nat,           // Sequencer.seq
    issued: seq<string>,    // commands, in the order format() numbered them
    wires: set<string>,     // every line the channel may still deliver, any number of times
    robot: Robot,
    accepted: seq<string>,  // lines executed, in order
    heard: set<Reply>)      // every reply the host may still hear

  datatype Move =
    | Issue(cmd: string)                     // format once and send
    | Deliver(wire: string, fields: Fields)  // the channel lets a line through, again or late
    | Stray(wire: string, fields: Fields)    // a line the host did not number: a query, or a stranger's

  predicate Harmful(wire: string) {
    Live(wire) || IsHello(wire)
  }

  function Take(s: State, wire: string, fields: Fields): State {
    var q := Respond(s.robot, wire, fields);
    s.(robot := q.robot, heard := s.heard + (set r | r in q.replies),
       accepted := if q.executed then s.accepted + [wire] else s.accepted)
  }

  /** Moves the channel or the host cannot make change nothing. */
  function Step(s: State, m: Move): State {
    match m
    case Issue(cmd) =>
      if '#' in cmd || !OneLine(cmd) then s
      else
        s.(counter := s.counter + 1, issued := s.issued + [cmd],
           wires := s.wires + {WithId(cmd, s.counter + 1)})
    case Deliver(wire, fields) => if wire in s.wires then Take(s, wire, fields) else s
    case Stray(wire, fields) => if Harmful(wire) then s else Take(s, wire, fields)
  }

  /** The session has begun: the robot has taken a HELLO and the host's counter is zero.
      Still in the channel are `leftover` lines and `stale` replies from before, among
      them the copies of the HELLO that were sent until its banner came. */
  function Hello(leftover: set<string>, stale: set<Reply>): State {
    State(0, [], leftover, FRESH_ROBOT, [], stale)
  }

  function After(leftover: set<string>, stale: set<Reply>, moves: seq<Move>): State {
    if moves == [] then Hello(leftover, stale)
    else Step(After(leftover, stale, moves[..|moves| - 1]), moves[|moves| - 1])
  }

  lemma AfterLast(leftover: set<string>, stale: set<Reply>, moves: seq<Move>)
    requires moves != []
    ensures After(leftover, stale, moves) == Step(After(leftover, stale, moves[..|moves| - 1]), moves[|moves| - 1])
  {}

  // ---- what every run keeps -------------------------------------------------------------

  /** Whatever is left over: the robot's replies are what its counter allows. */
  ghost predicate Plausible(stale: set<Reply>, r: Reply) {
    r in stale || r.Nack? || (r.Ack? && 0 < r.n < MAX_SEQUENCE_ID) || (r.Err? && r.code in ERR_CODES)
  }

  ghost predicate Sane(s: State, stale: set<Reply>) {
    0 < s.robot.expectedNext <= MAX_SEQUENCE_ID && forall r :: r in s.heard ==> Plausible(stale, r)
  }

  lemma DispatchIsSane(r: Robot, id: Option<nat>, line: Decoding, stale: set<Reply>)
    requires 0 < r.expectedNext <= MAX_SEQUENCE_ID
    ensures var q := Dispatch(r, id, line);
      0 < q.robot.expectedNext <= MAX_SEQUENCE_ID && forall p :: p in q.replies ==> Plausible(stale, p)
  {}

  lemma RespondIsSane(r: Robot, wire: string, fields: Fields, stale: set<Reply>)
    requires 0 < r.expectedNext <= MAX_SEQUENCE_ID
    ensures var q := Respond(r, wire, fields);
      0 < q.robot.expectedNext <= MAX_SEQUENCE_ID && forall p :: p in q.replies ==> Plausible(stale, p)
  {
    hide Dispatch, Heard, IdOf, Passed, COMMANDS, QUERIES;
    DispatchIsSane(r, IdOf(wire), fields, stale);
    DispatchIsSane(r, IdOf(wire), UnknownVerb, stale);
  }

  lemma StepIsSane(s: State, stale: set<Reply>, m: Move)
    requires Sane(s, stale)
    ensures Sane(Step(s, m), stale)
  {
    hide Respond, Live, IsHello, WithId, Plausible;
    if !m.Issue? {
      RespondIsSane(s.robot, m.wire, m.fields, stale);
    }
  }

  lemma {:induction false} RunIsSane(leftover: set<string>, stale: set<Reply>, moves: seq<Move>)
    ensures Sane(After(leftover, stale, moves), stale)
  {
    hide Step;
    if moves != [] {
      RunIsSane(leftover, stale, moves[..|moves| - 1]);
      StepIsSane(After(leftover, stale, moves[..|moves| - 1]), stale, moves[|moves| - 1]);
    }
  }

  ghost predicate WasIssued(s: State, wire: string) {
    exists i :: 0 <= i < |s.issued| && wire == WithId(s.issued[i], i + 1)
  }

  /** Without a HELLO left over: the accepted lines carry the ids 1, 2, 3 and so on, they
      were left over or issued, and an ack is stale or of one of them. */
  ghost predicate Inv(s: State, leftover: set<string>, stale: set<Reply>) {
    && s.counter == |s.issued| && s.robot.expectedNext == |s.accepted| + 1
    && (forall i :: 0 <= i < |s.accepted| ==> LiveAs(s.accepted[i], i + 1) && s.accepted[i] in s.wires)
    && (forall w :: w in s.wires ==> w in leftover || WasIssued(s, w))
    && (forall i :: 0 <= i < |s.issued| ==> OneLine(s.issued[i]))
    && (forall k: nat :: Ack(k) in s.heard ==> Ack(k) in stale || 0 < k <= |s.accepted|)
  }

  /** A numbered command is never a HELLO, and is heard under its own number or none. */
  lemma IssuedIsItself(cmd: string, k: nat)
    requires OneLine(cmd)
    ensures !IsHello(WithId(cmd, k)) && (IdOf(WithId(cmd, k)) == None || IdOf(WithId(cmd, k)) == Some(k))
  {
    IdReadsBackIff(cmd, k);
    ReceivedWithId(cmd, k);
    WithIdIs(cmd, k);
    SignedIsBare(k);
    hide ReadId, Received, Tokens, Then, WithId, Bare, Signed;
    ApartLosesNothing(cmd, "#" + Signed(k));
    NothingHeard();
    assert '#' !in "HELLO";
  }

  lemma NothingHeard()
    ensures Tokens("") == []
  {}

  lemma DispatchAcks(r: Robot, id: Option<nat>, line: Decoding, k: nat)
    requires r.expectedNext > 0 && Ack(k) in Dispatch(r, id, line).replies
    ensures 0 < k && k + 1 == Dispatch(r, id, line).robot.expectedNext
  {}

  lemma RemindsNoAck(r: Robot, k: nat)
    ensures Ack(k) !in Remind(r).replies
  {}

  lemma AckIsOfAccepted(r: Robot, wire: string, fields: Fields, k: nat)
    requires r.expectedNext > 0 && Ack(k) in Respond(r, wire, fields).replies
    ensures 0 < k && k + 1 == Respond(r, wire, fields).robot.expectedNext
  {
    hide Heard, IdOf, Passed, COMMANDS, QUERIES, Dispatch, Remind;
    RemindsNoAck(r, k);
    var line := if Heard(wire) != [] && Heard(wire)[0] in COMMANDS then fields else UnknownVerb;
    if Ack(k) in Dispatch(r, IdOf(wire), line).replies {
      DispatchAcks(r, IdOf(wire), line, k);
    }
  }

  lemma TakeKeeps(s: State, leftover: set<string>, stale: set<Reply>, wire: string, fields: Fields)
    requires Inv(s, leftover, stale) && !IsHello(wire) && (Live(wire) ==> wire in s.wires)
    ensures Inv(Take(s, wire, fields), leftover, stale)
  {
    var t := Take(s, wire, fields);
    hide Respond, Live, IdOf, IsHello, WithId, OneLine;
    ExecutesIffNext(s.robot, wire, fields);
    TakeKeepsReceipts(s, leftover, stale, wire, fields);
    hide Take;
    TakeChanges(s, wire, fields);
    hide LiveAs;
    forall w | w in t.wires ensures w in leftover || WasIssued(t, w) {
      assert WasIssued(s, w) ==> WasIssued(t, w);
    }
  }

  lemma TakeChanges(s: State, wire: string, fields: Fields)
    ensures var t := Take(s, wire, fields); var q := Respond(s.robot, wire, fields);
      && t.wires == s.wires && t.issued == s.issued && t.counter == s.counter && t.robot == q.robot
      && t.accepted == if q.executed then s.accepted + [wire] else s.accepted
  {
    hide Respond;
  }

  lemma TakeKeepsReceipts(s: State, leftover: set<string>, stale: set<Reply>, wire: string, fields: Fields)
    requires Inv(s, leftover, stale) && !IsHello(wire)
    ensures var t := Take(s, wire, fields);
      forall k: nat :: Ack(k) in t.heard ==> Ack(k) in stale || 0 < k <= |t.accepted|
  {
    var t := Take(s, wire, fields);
    var q := Respond(s.robot, wire, fields);
    hide Respond, LiveAs, IsHello, WithId, OneLine, WasIssued;
    ExecutesIffNext(s.robot, wire, fields);
    forall k: nat | Ack(k) in t.heard ensures Ack(k) in stale || 0 < k <= |t.accepted| {
      if Ack(k) in q.replies {
        AckIsOfAccepted(s.robot, wire, fields, k);
      }
    }
  }

  lemma IssueKeeps(s: State, leftover: set<string>, stale: set<Reply>, cmd: string)
    requires Inv(s, leftover, stale)
    ensures Inv(Step(s, Issue(cmd)), leftover, stale)
  {
    var t := Step(s, Issue(cmd));
    hide WithId, LiveAs, OneLine;
    forall w | w in t.wires ensures w in leftover || WasIssued(t, w) {
      if w in s.wires {
        if w !in leftover {
          var i :| 0 <= i < |s.issued| && w == WithId(s.issued[i], i + 1);
          assert t.issued[i] == s.issued[i];
        }
      } else {
        assert w == WithId(t.issued[s.counter], s.counter + 1);
      }
    }
  }

  lemma WireIsNoHello(s: State, leftover: set<string>, stale: set<Reply>, wire: string)
    requires Inv(s, leftover, stale) && wire in s.wires && forall w :: w in leftover ==> !IsHello(w)
    ensures !IsHello(wire)
  {
    hide IsHello, WithId, LiveAs, OneLine;
    if wire !in leftover {
      var i :| 0 <= i < |s.issued| && wire == WithId(s.issued[i], i + 1);
      IssuedIsItself(s.issued[i], i + 1);
    }
  }

  lemma StepKeeps(s: State, leftover: set<string>, stale: set<Reply>, m: Move)
    requires Inv(s, leftover, stale) && forall w :: w in leftover ==> !IsHello(w)
    ensures Inv(Step(s, m), leftover, stale)
  {
    hide Inv, Take, IsHello, Live;
    match m {
      case Issue(cmd) => IssueKeeps(s, leftover, stale, cmd);
      case Deliver(wire, fields) =>
        if wire in s.wires {
          WireIsNoHello(s, leftover, stale, wire);
          TakeKeeps(s, leftover, stale, wire, fields);
        }
      case Stray(wire, fields) =>
        if !Harmful(wire) {
          TakeKeeps(s, leftover, stale, wire, fields);
        }
    }
  }

  /** Over any run of the channel, as long as no HELLO is left over in it. */
  lemma {:induction false} SessionInv(leftover: set<string>, stale: set<Reply>, moves: seq<Move>)
    requires forall w :: w in leftover ==> !IsHello(w)
    ensures Inv(After(leftover, stale, moves), leftover, stale)
  {
    hide Step, IsHello;
    if moves != [] {
      SessionInv(leftover, stale, moves[..|moves| - 1]);
      StepKeeps(After(leftover, stale, moves[..|moves| - 1]), leftover, stale, moves[|moves| - 1]);
    }
  }

  // ---- what a session promises --------------------------------------------------------

  /** The accepted lines are the first commands issued, in order, each once. */
  ghost predicate InOrderOnce(s: State) {
    && |s.accepted| <= |s.issued|
    && s.robot.expectedNext == |s.accepted| + 1
    && forall i :: 0 <= i < |s.accepted| ==> s.accepted[i] == WithId(s.issued[i], i + 1)
  }

  /** Command k sits at its own place among the accepted lines, and nowhere else. */
  ghost predicate AcceptedOnce(s: State, k: nat) {
    && 0 < k <= |s.accepted| && k <= |s.issued|
    && s.accepted[k - 1] == WithId(s.issued[k - 1], k)
    && forall i :: 0 <= i < |s.accepted| && IdOf(s.accepted[i]) == Some(k) ==> i == k - 1
  }

  /** The line accepted k-th is command k, if none left over is live under that id. */
  lemma AcceptedIs(s: State, leftover: set<string>, stale: set<Reply>, j: nat)
    requires Inv(s, leftover, stale) && j < |s.accepted|
    ensures LiveAs(s.accepted[j], j + 1) && (s.accepted[j] in leftover || WasIssued(s, s.accepted[j]))
  {
    hide LiveAs, WithId, OneLine, WasIssued;
  }

  lemma IssuedOnOneLine(s: State, leftover: set<string>, stale: set<Reply>, i: nat)
    requires Inv(s, leftover, stale) && i < |s.issued|
    ensures OneLine(s.issued[i])
  {
    hide LiveAs, WithId, OneLine, WasIssued;
  }

  lemma AcceptedIsIssued(s: State, leftover: set<string>, stale: set<Reply>, k: nat)
    requires Inv(s, leftover, stale) && 0 < k <= |s.accepted| && forall w :: w in leftover ==> !LiveAs(w, k)
    ensures k <= |s.issued| && s.accepted[k - 1] == WithId(s.issued[k - 1], k)
  {
    hide Inv, Live, WithId, OneLine, IdOf;
    var w := s.accepted[k - 1];
    AcceptedIs(s, leftover, stale, k - 1);
    var i: nat :| i < |s.issued| && w == WithId(s.issued[i], i + 1);
    IssuedOnOneLine(s, leftover, stale, i);
    IssuedIsItself(s.issued[i], i + 1);
  }

  lemma AcceptedIsOnce(s: State, leftover: set<string>, stale: set<Reply>, k: nat)
    requires Inv(s, leftover, stale) && 0 < k <= |s.accepted| && forall w :: w in leftover ==> !LiveAs(w, k)
    ensures AcceptedOnce(s, k)
  {
    AcceptedIsIssued(s, leftover, stale, k);
    hide Live, WithId, IdOf;
    forall i | 0 <= i < |s.accepted| && IdOf(s.accepted[i]) == Some(k) ensures i == k - 1 {
      assert LiveAs(s.accepted[i], i + 1);
    }
  }

  /** An ack for an id is a receipt: the command that carries the id has been accepted,
      at its own place in the order, and at no other. Unless, at the HELLO, a further
      HELLO was on its way, or a live line under that id, or that very ack. */
  lemma AckIsReceipt(leftover: set<string>, stale: set<Reply>, moves: seq<Move>, k: nat)
    requires forall w :: w in leftover ==> !IsHello(w) && !LiveAs(w, k)
    requires Ack(k) in After(leftover, stale, moves).heard && Ack(k) !in stale
    ensures AcceptedOnce(After(leftover, stale, moves), k)
  {
    SessionInv(leftover, stale, moves);
    hide After, AcceptedOnce, IsHello, LiveAs;
    AcceptedIsOnce(After(leftover, stale, moves), leftover, stale, k);
  }

  lemma CountsAccepted(s: State, leftover: set<string>, stale: set<Reply>)
    requires Inv(s, leftover, stale) && Sane(s, stale)
    ensures s.robot.expectedNext == |s.accepted| + 1 <= MAX_SEQUENCE_ID
  {
    hide LiveAs, OneLine, WasIssued, Plausible;
  }

  lemma Reacked(r: Robot, wire: string, k: nat, fields: Fields)
    requires LiveAs(wire, k) && 0 < k < r.expectedNext <= MAX_SEQUENCE_ID
    ensures Respond(r, wire, fields) == Response(r, [Ack(r.expectedNext - 1)], false)
  {
    hide Heard, IdOf, Respond, COMMANDS;
    ExecutesIffNext(r, wire, fields);
    CommandIsAnswered(r, wire, fields);
  }

  /** Once a line has been accepted, delivering it again, at any time and however late,
      is answered with exactly one ack, of the latest id accepted, and executes nothing. */
  lemma AcceptedIsReacked(leftover: set<string>, stale: set<Reply>, moves: seq<Move>, k: nat, fields: Fields)
    requires forall w :: w in leftover ==> !IsHello(w)
    requires 0 < k <= |After(leftover, stale, moves).accepted|
    ensures var s := After(leftover, stale, moves);
      Respond(s.robot, s.accepted[k - 1], fields) == Response(s.robot, [Ack(|s.accepted|)], false)
  {
    hide *;
    var s := After(leftover, stale, moves);
    SessionInv(leftover, stale, moves);
    RunIsSane(leftover, stale, moves);
    AcceptedIs(s, leftover, stale, k - 1);
    CountsAccepted(s, leftover, stale);
    Reacked(s.robot, s.accepted[k - 1], k, fields);
  }

  lemma CleanChannelIsInOrder(leftover: set<string>, stale: set<Reply>, moves: seq<Move>)
    requires forall w :: w in leftover ==> !Harmful(w)
    ensures InOrderOnce(After(leftover, stale, moves))
  {
    var s := After(leftover, stale, moves);
    assert forall w :: w in leftover ==> !IsHello(w) && !Live(w);
    SessionInv(leftover, stale, moves);
    assert s.robot.expectedNext == |s.accepted| + 1;
    hide After, WithId, IdOf, IsHello, Live, Inv;
    forall i | 0 <= i < |s.accepted| ensures i < |s.issued| && s.accepted[i] == WithId(s.issued[i], i + 1) {
      var k := i + 1;
      AcceptedIsIssued(s, leftover, stale, k);
    }
    if |s.accepted| > 0 {
      assert s.accepted[|s.accepted| - 1] == s.accepted[|s.accepted| - 1];
    }
  }

  // ---- the runs that break it -----------------------------------------------------------------

  lemma {:induction false} AfterOne(leftover: set<string>, stale: set<Reply>, moves: seq<Move>, m: Move)
    ensures After(leftover, stale, moves + [m]) == Step(After(leftover, stale, moves), m)
  {
    assert (moves + [m])[..|moves|] == moves;
  }

  lemma StopIsPlain()
    ensures var verb := "STOP"; Bare(verb) && OneLine(verb) && '#' !in verb && verb in COMMANDS && |verb| == 4
  {}

  lemma PlainIsLive(verb: string, k: nat)
    requires 0 < k < MAX_SEQUENCE_ID && Bare(verb) && OneLine(verb) && |verb| <= 200 && verb in COMMANDS
    ensures var wire := WithId(verb, k); LiveAs(wire, k) && Heard(wire)[0] == verb && !IsHello(wire)
  {
    hide WithId, ReadId, Received, Tokens, Bare, OneLine, COMMANDS, Signed;
    PlainCommand(verb, k);
    var words := Heard(WithId(verb, k));
    assert |words| == 2 && words[0] == verb;
  }

  lemma StopIsLive(k: nat)
    requires 0 < k < MAX_SEQUENCE_ID
    ensures var wire := WithId("STOP", k); LiveAs(wire, k) && Heard(wire)[0] == "STOP" && !IsHello(wire)
  {
    StopIsPlain();
    hide WithId, LiveAs, Heard, IsHello, Bare, OneLine, COMMANDS;
    PlainIsLive("STOP", k);
  }

  /** k commands issued and none delivered. */
  function Issues(k: nat): seq<Move> {
    if k == 0 then [] else Issues(k - 1) + [Issue("STOP")]
  }

  /** The state those make. */
  ghost predicate AllIssued(s: State, leftover: set<string>, stale: set<Reply>, k: nat) {
    && |s.issued| == s.counter == k && s.accepted == [] && s.robot == FRESH_ROBOT && s.heard == stale
    && leftover <= s.wires && forall i: nat :: 0 < i <= k ==> WithId("STOP", i) in s.wires
  }

  lemma {:induction false} IssuesRun(leftover: set<string>, stale: set<Reply>, k: nat)
    ensures AllIssued(After(leftover, stale, Issues(k)), leftover, stale, k)
  {
    StopIsPlain();
    hide WithId, OneLine, Bare, COMMANDS;
    if k > 0 {
      IssuesRun(leftover, stale, k - 1);
      AfterOne(leftover, stale, Issues(k - 1), Issue("STOP"));
      hide After;
    }
  }

  /** The first k of them delivered, one after the other. */
  function Replay(k: nat): seq<Move> {
    if k == 0 then [] else Replay(k - 1) + [Deliver(WithId("STOP", k), Decoded(Done))]
  }

  /** `t` is `s` with the commands 1 to k accepted, from a fresh robot on. */
  ghost predicate Replayed(s: State, t: State, k: nat) {
    && t.issued == s.issued && t.counter == s.counter && t.wires == s.wires && s.heard <= t.heard
    && t.robot.expectedNext == k + 1 && (k > 0 ==> Ack(k) in t.heard)
    && |t.accepted| == |s.accepted| + k && s.accepted <= t.accepted
    && (k > 0 ==> IdOf(t.accepted[|t.accepted| - 1]) == Some(k))
  }

  lemma ReplayOne(s: State, t: State, k: nat)
    requires 0 < k < MAX_SEQUENCE_ID && Replayed(s, t, k - 1) && WithId("STOP", k) in s.wires
    ensures Replayed(s, Step(t, Deliver(WithId("STOP", k), Decoded(Done))), k)
  {
    hide WithId, Respond, Live, IsHello, IdOf, Heard;
    var wire := WithId("STOP", k);
    StopIsLive(k);
    assert t.robot.expectedNext == k && wire in t.wires;
    ExecutesIffNext(t.robot, wire, Decoded(Done));
    AcksWhatItExecutes(t.robot, wire);
    assert Step(t, Deliver(wire, Decoded(Done))) == Take(t, wire, Decoded(Done));
    TakeChanges(t, wire, Decoded(Done));
  }

  lemma AcksWhatItExecutes(r: Robot, wire: string)
    requires r.expectedNext > 0 && Respond(r, wire, Decoded(Done)).executed
    ensures Ack(r.expectedNext) in Respond(r, wire, Decoded(Done)).replies
  {
    var q := Dispatch(r, IdOf(wire), Decoded(Done));
    hide Heard, IdOf, Passed, COMMANDS, QUERIES;
    assert q.executed ==> q.replies[0] == Ack(r.expectedNext);
  }

  lemma {:induction false} ReplayRuns(leftover: set<string>, stale: set<Reply>, base: seq<Move>, k: nat)
    requires var s := After(leftover, stale, base);
      s.robot.expectedNext == 1 && forall i: nat :: 0 < i <= k ==> WithId("STOP", i) in s.wires
    requires k < MAX_SEQUENCE_ID
    ensures Replayed(After(leftover, stale, base), After(leftover, stale, base + Replay(k)), k)
  {
    hide After, WithId, Step, Replayed, IdOf;
    var s := After(leftover, stale, base);
    if k == 0 {
      assert base + [] == base;
      NothingReplayed(s);
    } else {
      ReplayRuns(leftover, stale, base, k - 1);
      var m := Deliver(WithId("STOP", k), Decoded(Done));
      ReplayLast(base, k);
      AfterOne(leftover, stale, base + Replay(k - 1), m);
      ReplayOne(s, After(leftover, stale, base + Replay(k - 1)), k);
    }
  }

  lemma NothingReplayed(s: State)
    requires s.robot.expectedNext == 1
    ensures Replayed(s, s, 0)
  {}

  lemma ReplayLast(base: seq<Move>, k: nat)
    requires k > 0
    ensures base + Replay(k) == base + Replay(k - 1) + [Deliver(WithId("STOP", k), Decoded(Done))]
  {
    hide WithId;
  }

  /** A lossless exchange of k commands. */
  lemma ExchangeRuns(leftover: set<string>, stale: set<Reply>, k: nat) returns (moves: seq<Move>)
    requires k < MAX_SEQUENCE_ID
    ensures var s := After(leftover, stale, moves);
      && |s.issued| == |s.accepted| == s.counter == k && s.robot.expectedNext == k + 1
      && leftover <= s.wires && (forall i: nat :: 0 < i <= k ==> WithId("STOP", i) in s.wires)
      && (k > 0 ==> IdOf(s.accepted[k - 1]) == Some(k) && Ack(k) in s.heard)
  {
    hide After, WithId, Issues, Replay, IdOf;
    IssuesRun(leftover, stale, k);
    ReplayRuns(leftover, stale, Issues(k), k);
    moves := Issues(k) + Replay(k);
  }

  /** A live line left over is executed in a session that never issued it, and the ack
      it draws is heard. */
  lemma LeftOverLineBreaksOrder(leftover: set<string>, stale: set<Reply>, w: string, k: nat)
    returns (moves: seq<Move>)
    requires w in leftover && LiveAs(w, k)
    ensures !InOrderOnce(After(leftover, stale, moves))
    ensures var s := After(leftover, stale, moves);
      |s.accepted| == k > 0 && |s.issued| == s.counter == k - 1 && s.accepted[k - 1] == w && Ack(k) in s.heard
  {
    assert 0 < k < MAX_SEQUENCE_ID;
    hide After, WithId, IdOf, Live;
    var run := ExchangeRuns(leftover, stale, k - 1);
    var s := After(leftover, stale, run);
    moves := run + [Deliver(w, Decoded(Done))];
    AfterOne(leftover, stale, run, Deliver(w, Decoded(Done)));
    ExecutesIffNext(s.robot, w, Decoded(Done));
    AcksWhatItExecutes(s.robot, w);
    hide Respond;
    assert Step(s, Deliver(w, Decoded(Done))) == Take(s, w, Decoded(Done));
  }

  /** A HELLO left over starts the robot over in the middle of the session: command k
      is acked, and accepted a second time. */
  lemma LeftOverHelloRepeats(leftover: set<string>, stale: set<Reply>, h: string, k: nat)
    returns (moves: seq<Move>)
    requires h in leftover && IsHello(h) && 0 < k < MAX_SEQUENCE_ID
    ensures !InOrderOnce(After(leftover, stale, moves))
    ensures var s := After(leftover, stale, moves);
      |s.issued| == k && Ack(k) in s.heard && !AcceptedOnce(s, k)
  {
    hide After, WithId, IdOf, Live, Replay, Replayed, IsHello, Step;
    var first := ExchangeRuns(leftover, stale, k);
    var late := Deliver(h, Decoded(Done));
    AfterOne(leftover, stale, first, late);
    StartsOver(After(leftover, stale, first), h);
    var again := first + [late];
    ReplayRuns(leftover, stale, again, k);
    moves := again + Replay(k);
    AcceptedTwice(After(leftover, stale, again), After(leftover, stale, moves), k);
  }

  lemma AcceptedTwice(s: State, t: State, k: nat)
    requires k > 0 && |s.accepted| == |s.issued| == k && Replayed(s, t, k)
    ensures |t.issued| == k && Ack(k) in t.heard && !AcceptedOnce(t, k) && !InOrderOnce(t)
  {
    hide WithId, IdOf;
    var last := 2 * k - 1;
    assert |t.accepted| == 2 * k && IdOf(t.accepted[last]) == Some(k);
  }

  lemma StartsOver(s: State, h: string)
    requires h in s.wires && IsHello(h) && s.robot.expectedNext > 0
    ensures Step(s, Deliver(h, Decoded(Done))) == s.(robot := FRESH_ROBOT)
  {
    hide Tokens, Received;
  }

  lemma LeftOverBreaksOrder(leftover: set<string>, stale: set<Reply>, w: string) returns (moves: seq<Move>)
    requires w in leftover && Harmful(w)
    ensures !InOrderOnce(After(leftover, stale, moves))
  {
    if Live(w) {
      hide After, InOrderOnce;
      moves := LeftOverLineBreaksOrder(leftover, stale, w, IdOf(w).value);
    } else {
      hide After, InOrderOnce;
      moves := LeftOverHelloRepeats(leftover, stale, w, 1);
    }
  }

  /** The order is safe over every run exactly when nothing left over from before the
      HELLO is live or another HELLO, whatever replies are still to come. */
  lemma SafeIffNothingLeftOver(leftover: set<string>, stale: set<Reply>)
    ensures (forall moves :: InOrderOnce(After(leftover, stale, moves)))
       <==> (forall w :: w in leftover ==> !Harmful(w))
  {
    hide After, InOrderOnce, Harmful;
    if forall w :: w in leftover ==> !Harmful(w) {
      forall moves ensures InOrderOnce(After(leftover, stale, moves)) {
        CleanChannelIsInOrder(leftover, stale, moves);
      }
    } else {
      var w :| w in leftover && Harmful(w);
      var moves := LeftOverBreaksOrder(leftover, stale, w);
    }
  }

  // ---- receipts ---------------------------------------------------------------------------------

  /** Every ack heard for a command issued in this session says it was accepted. */
  ghost predicate AcksAreReceipts(s: State) {
    forall k: nat :: 0 < k <= |s.issued| && Ack(k) in s.heard ==> AcceptedOnce(s, k)
  }

  lemma OtherWire(w: string, k: int) returns (cmd: string)
    ensures '#' !in cmd && OneLine(cmd) && WithId(cmd, k) != w
  {
    cmd := if w != "" && w[0] == 'S' then "RUN" else "STOP";
    assert WithId(cmd, k)[0] == cmd[0];
  }

  /** The session's own command k goes out after the left-over one has taken its place. */
  lemma LeftOverLineForgesReceipt(leftover: set<string>, stale: set<Reply>, w: string, k: nat)
    returns (moves: seq<Move>)
    requires w in leftover && LiveAs(w, k)
    ensures var s := After(leftover, stale, moves);
      0 < k <= |s.issued| && Ack(k) in s.heard && !AcceptedOnce(s, k)
  {
    hide After, Live, WithId, IdOf;
    var run := LeftOverLineBreaksOrder(leftover, stale, w, k);
    var cmd := OtherWire(w, k);
    moves := run + [Issue(cmd)];
    AfterOne(leftover, stale, run, Issue(cmd));
    var s := After(leftover, stale, run);
    assert Step(s, Issue(cmd)).issued[k - 1] == cmd;
  }

  lemma Unreceipted(s: State, k: nat)
    requires 0 < k <= |s.issued| && Ack(k) in s.heard && !AcceptedOnce(s, k)
    ensures !AcksAreReceipts(s)
  {
    hide AcceptedOnce;
  }

  lemma StaleIsNoReceipt(leftover: set<string>, stale: set<Reply>, k: nat)
    ensures var s := After(leftover, stale, Issues(k));
      |s.issued| == k && s.heard == stale && !AcceptedOnce(s, k)
  {
    hide After, WithId, Issues;
    IssuesRun(leftover, stale, k);
  }

  lemma CleanChannelReceipts(leftover: set<string>, stale: set<Reply>, moves: seq<Move>)
    requires forall w :: w in leftover ==> !Harmful(w)
    requires forall k: nat :: Ack(k) in stale ==> k == 0
    ensures AcksAreReceipts(After(leftover, stale, moves))
  {
    var s := After(leftover, stale, moves);
    hide After, AcceptedOnce, Live, IsHello;
    forall k: nat | 0 < k <= |s.issued| && Ack(k) in s.heard ensures AcceptedOnce(s, k) {
      AckIsReceipt(leftover, stale, moves, k);
    }
  }

  lemma LeftOverForgesReceipt(leftover: set<string>, stale: set<Reply>, w: string) returns (moves: seq<Move>)
    requires w in leftover && Harmful(w)
    ensures !AcksAreReceipts(After(leftover, stale, moves))
  {
    var k := if Live(w) then IdOf(w).value else 1;
    hide After, AcksAreReceipts, AcceptedOnce, IdOf, InOrderOnce;
    if LiveAs(w, k) {
      moves := LeftOverLineForgesReceipt(leftover, stale, w, k);
    } else {
      moves := LeftOverHelloRepeats(leftover, stale, w, k);
    }
    Unreceipted(After(leftover, stale, moves), k);
  }

  /** Acks are receipts over every run exactly when the channel was clear at the HELLO:
      no live line, no other HELLO and no ack left over from before. */
  lemma ReceiptsAreTrueIff(leftover: set<string>, stale: set<Reply>)
    ensures (forall moves :: AcksAreReceipts(After(leftover, stale, moves)))
       <==> (forall w :: w in leftover ==> !Harmful(w)) && (forall k: nat :: Ack(k) in stale ==> k == 0)
  {
    hide After, AcksAreReceipts, Harmful, AcceptedOnce;
    if exists w :: w in leftover && Harmful(w) {
      var w :| w in leftover && Harmful(w);
      var moves := LeftOverForgesReceipt(leftover, stale, w);
    } else if exists k: nat :: Ack(k) in stale && k != 0 {
      var k: nat :| Ack(k) in stale && k != 0;
      StaleIsNoReceipt(leftover, stale, k);
      Unreceipted(After(leftover, stale, Issues(k)), k);
    } else {
      forall moves ensures AcksAreReceipts(After(leftover, stale, moves)) {
        CleanChannelReceipts(leftover, stale, moves);
      }
    }
  }

  // ---- seqd()'s own receipt ---------------------------------------------------------------

  /** Whatever seqd() takes for the answer to command k, once issued, says that the
      command was accepted. */
  ghost predicate AnswersAreReceipts(s: State, k: nat, done: nat, reason: string) {
    forall r :: r in s.heard && SeqdMatches(Render(r, done, reason), k) && k <= |s.issued| ==> AcceptedOnce(s, k)
  }

  lemma Misanswered(s: State, r: Reply, k: nat, done: nat, reason: string)
    requires r in s.heard && SeqdMatches(Render(r, done, reason), k) && k <= |s.issued| && !AcceptedOnce(s, k)
    ensures !AnswersAreReceipts(s, k, done, reason)
  {
    hide AcceptedOnce, SeqdMatches, Render;
  }

  lemma AckAnswers(k: nat, done: nat, reason: string)
    ensures SeqdMatches(Render(Ack(k), done, reason), k)
  {
    SeqdReceipt(Ack(k), done, reason, k);
  }

  /** The refusal an err with this code reports. */
  function RefusalOf(k: nat): Result
    requires k in ERR_CODES
    ensures ResultCode(RefusalOf(k)) == k
  {
    if k == 1 then Unknown else if k == 2 then BadArg else if k == 3 then Range else if k == 4 then Full
    else if k == 6 then Unimplemented else if k == 10 then Busy else WriteOnly
  }

  /** An err about command 1 with code k: refused on its merits or, for k = 1, a verb
      the robot does not know. Either way command k has not been accepted. */
  lemma CodeForgesAnswer(leftover: set<string>, stale: set<Reply>, k: nat, done: nat, reason: string)
    returns (moves: seq<Move>)
    requires k in ERR_CODES
    ensures !AnswersAreReceipts(After(leftover, stale, moves), k, done, reason)
  {
    hide After, SeqdMatches, Render, Issues, AnswersAreReceipts;
    SeqdReceipt(Err(k, 1), done, reason, k);
    IssuesRun(leftover, stale, k);
    var s := After(leftover, stale, Issues(k));
    var m := if k == 1 then Stray(WithId("FOO", 1), BadFields) else Deliver(WithId("STOP", 1), Decoded(RefusalOf(k)));
    moves := Issues(k) + [m];
    AfterOne(leftover, stale, Issues(k), m);
    if k == 1 {
      UnknownDrawsErr(s);
    } else {
      RefusedDrawsErr(s, k);
    }
    Misanswered(After(leftover, stale, moves), Err(k, 1), k, done, reason);
  }

  lemma FooIsUnknown()
    ensures var verb := "FOO";
      && Bare(verb) && OneLine(verb) && |verb| == 3
      && verb !in COMMANDS && verb !in QUERIES && verb != "HELLO" && !Passed(verb)
  {}

  lemma UnknownIsRefused(r: Robot, verb: string, k: nat)
    requires 0 < k == r.expectedNext < MAX_SEQUENCE_ID && Bare(verb) && OneLine(verb) && |verb| <= 200
    requires verb !in COMMANDS && verb !in QUERIES && verb != "HELLO" && !Passed(verb)
    ensures var wire := WithId(verb, k); var q := Respond(r, wire, BadFields);
      !Harmful(wire) && !q.executed && Err(1, k) in q.replies
  {
    hide WithId, Tokens, Received, ReadId, COMMANDS, QUERIES, Passed, Bare, OneLine, Signed, Dispatch;
    PlainCommand(verb, k);
    var words := Heard(WithId(verb, k));
    assert |words| == 2 && words[0] == verb;
    UnknownIsCodeOne(r);
  }

  lemma UnknownIsCodeOne(r: Robot)
    requires 0 < r.expectedNext < MAX_SEQUENCE_ID
    ensures var q := Dispatch(r, Some(r.expectedNext), UnknownVerb); !q.executed && Err(1, r.expectedNext) in q.replies
  {
    var q := Dispatch(r, Some(r.expectedNext), UnknownVerb);
    assert q.replies[1] == Err(1, r.expectedNext);
  }

  lemma UnknownDrawsErr(s: State)
    requires s.robot == FRESH_ROBOT && s.accepted == []
    ensures var t := Step(s, Stray(WithId("FOO", 1), BadFields));
      t.issued == s.issued && Err(1, 1) in t.heard && !AcceptedOnce(t, 1)
  {
    FooIsUnknown();
    hide WithId, Respond, COMMANDS, QUERIES, Passed, Bare, OneLine, Harmful, IdOf;
    UnknownIsRefused(s.robot, "FOO", 1);
  }

  lemma RefusedSaysWhy(r: Robot, wire: string, result: Result)
    requires LiveAs(wire, r.expectedNext) && result != Done
    ensures Err(ResultCode(result), r.expectedNext) in Respond(r, wire, Decoded(result)).replies
  {
    hide COMMANDS, QUERIES, Passed, IdOf, Heard;
    VerbsApart(Heard(wire)[0]);
    var q := Dispatch(r, Some(r.expectedNext), Decoded(result));
    assert q.replies[1] == Err(ResultCode(result), r.expectedNext);
  }

  lemma RefusedDrawsErr(s: State, k: nat)
    requires k in ERR_CODES && k > 1 && WithId("STOP", 1) in s.wires
    requires s.robot == FRESH_ROBOT && s.accepted == []
    ensures var t := Step(s, Deliver(WithId("STOP", 1), Decoded(RefusalOf(k))));
      t.issued == s.issued && Err(k, 1) in t.heard && !AcceptedOnce(t, k)
  {
    hide WithId, Respond, LiveAs, Heard, IsHello, IdOf;
    StopIsLive(1);
    RefusedSaysWhy(s.robot, WithId("STOP", 1), RefusalOf(k));
  }

  /** No reply matches an id that is never accepted, short of a code or a stale reply. */
  lemma NoAnswerAtAll(leftover: set<string>, stale: set<Reply>, moves: seq<Move>, k: nat, done: nat, reason: string)
    requires !(0 < k < MAX_SEQUENCE_ID) && k !in ERR_CODES
    requires forall r :: r in stale ==> !SeqdMatches(Render(r, done, reason), k)
    ensures AnswersAreReceipts(After(leftover, stale, moves), k, done, reason)
  {
    var s := After(leftover, stale, moves);
    RunIsSane(leftover, stale, moves);
    hide After, AcceptedOnce, SeqdMatches, Render;
    forall r | r in s.heard && SeqdMatches(Render(r, done, reason), k) ensures AcceptedOnce(s, k) {
      SeqdReceipt(r, done, reason, k);
      assert Plausible(stale, r);
    }
  }

  lemma ClearAnswer(leftover: set<string>, stale: set<Reply>, moves: seq<Move>, k: nat, done: nat, reason: string)
    requires forall w :: w in leftover ==> !IsHello(w) && !LiveAs(w, k)
    requires k !in ERR_CODES && forall r :: r in stale ==> !SeqdMatches(Render(r, done, reason), k)
    ensures AnswersAreReceipts(After(leftover, stale, moves), k, done, reason)
  {
    var s := After(leftover, stale, moves);
    RunIsSane(leftover, stale, moves);
    hide After, AcceptedOnce, IsHello, LiveAs, SeqdMatches, Render;
    forall r | r in s.heard && SeqdMatches(Render(r, done, reason), k) ensures AcceptedOnce(s, k) {
      SeqdReceipt(r, done, reason, k);
      assert Plausible(stale, r);
      AckIsReceipt(leftover, stale, moves, k);
    }
  }

  lemma LeftOverForgesAnswer(leftover: set<string>, stale: set<Reply>, w: string, k: nat, done: nat, reason: string)
    returns (moves: seq<Move>)
    requires w in leftover && (IsHello(w) || LiveAs(w, k)) && 0 < k < MAX_SEQUENCE_ID
    ensures !AnswersAreReceipts(After(leftover, stale, moves), k, done, reason)
  {
    hide After, AnswersAreReceipts, AcceptedOnce, IsHello, LiveAs, InOrderOnce;
    AckAnswers(k, done, reason);
    hide SeqdMatches, Render;
    if LiveAs(w, k) {
      moves := LeftOverLineForgesReceipt(leftover, stale, w, k);
    } else {
      moves := LeftOverHelloRepeats(leftover, stale, w, k);
    }
    Misanswered(After(leftover, stale, moves), Ack(k), k, done, reason);
  }

  /** What seqd() takes for an answer to command k is a receipt over every run exactly
      when k is not one of the codes err lines carry, no stale reply matches, and, for an
      id that can be accepted at all, no HELLO and no live line under k is left over. */
  lemma AnswerIsReceiptIff(leftover: set<string>, stale: set<Reply>, k: nat, done: nat, reason: string)
    ensures (forall moves :: AnswersAreReceipts(After(leftover, stale, moves), k, done, reason))
       <==> && k !in ERR_CODES && (forall r :: r in stale ==> !SeqdMatches(Render(r, done, reason), k))
            && (0 < k < MAX_SEQUENCE_ID ==> forall w :: w in leftover ==> !IsHello(w) && !LiveAs(w, k))
  {
    hide After, AnswersAreReceipts, AcceptedOnce, IsHello, LiveAs, SeqdMatches, Render, Issues;
    if k in ERR_CODES {
      var moves := CodeForgesAnswer(leftover, stale, k, done, reason);
    } else if exists r :: r in stale && SeqdMatches(Render(r, done, reason), k) {
      var r :| r in stale && SeqdMatches(Render(r, done, reason), k);
      StaleIsNoReceipt(leftover, stale, k);
      Misanswered(After(leftover, stale, Issues(k)), r, k, done, reason);
    } else if !(0 < k < MAX_SEQUENCE_ID) {
      forall moves ensures AnswersAreReceipts(After(leftover, stale, moves), k, done, reason) {
        NoAnswerAtAll(leftover, stale, moves, k, done, reason);
      }
    } else if exists w :: w in leftover && (IsHello(w) || LiveAs(w, k)) {
      var w :| w in leftover && (IsHello(w) || LiveAs(w, k));
      var moves := LeftOverForgesAnswer(leftover, stale, w, k, done, reason);
    } else {
      forall moves ensures AnswersAreReceipts(After(leftover, stale, moves), k, done, reason) {
        ClearAnswer(leftover, stale, moves, k, done, reason);
      }
    }
  }

  /** The code a rejected line is answered with. */
  function RejectionCode(id: nat, line: Decoding): nat {
    ResultCode(if id == MAX_SEQUENCE_ID then Range else if line.UnknownVerb? then Unknown else BadArg)
  }

  /** And a rejection is seldom heard at all: a command that arrives in its turn and is
      rejected draws an answer seqd() recognises exactly when its id is the code. */
  lemma RejectionIsAnsweredIff(r: Robot, line: Decoding, done: nat, reason: string)
    requires r.expectedNext > 0 && !Dispatch(r, Some(r.expectedNext), line).executed
    ensures (exists reply :: reply in Dispatch(r, Some(r.expectedNext), line).replies
                          && SeqdMatches(Render(reply, done, reason), r.expectedNext))
       <==> r.expectedNext == RejectionCode(r.expectedNext, line)
  {
    var id := r.expectedNext;
    var q := Dispatch(r, Some(id), line);
    var code := RejectionCode(id, line);
    hide SeqdMatches, Render;
    assert q.replies == [Nack(id), Err(code, id)];
    SeqdReceipt(Nack(id), done, reason, id);
    SeqdReceipt(Err(code, id), done, reason, id);
    if id == code {
      assert Err(code, id) in q.replies && SeqdMatches(Render(Err(code, id), done, reason), id);
    }
  }

  /** Both failures of the pattern: an err about another command taken for the answer
      to command 3, and the err about command 7 not taken for its answer. */
  lemma ErrIsNoReceipt(done: nat, reason: string)
    ensures var q := Dispatch(Robot(3, false), Some(MAX_SEQUENCE_ID), Decoded(Done));
      var other := Err(3, MAX_SEQUENCE_ID);
      !q.executed && other in q.replies && SeqdMatches(Render(other, done, reason), 3)
    ensures var q := Dispatch(Robot(7, false), Some(7), BadFields);
      Err(2, 7) in q.replies && forall r :: r in q.replies ==> !SeqdMatches(Render(r, done, reason), 7)
  {
    hide SeqdMatches, Render;
    SeqdReceipt(Err(3, MAX_SEQUENCE_ID), done, reason, 3);
    var q := Dispatch(Robot(3, false), Some(MAX_SEQUENCE_ID), Decoded(Done));
    assert q.replies[1] == Err(3, MAX_SEQUENCE_ID);
    var p := Dispatch(Robot(7, false), Some(7), BadFields);
    assert p.replies == [Nack(7), Err(2, 7)];
    SeqdReceipt(Nack(7), done, reason, 7);
    SeqdReceipt(Err(2, 7), done, reason, 7);
  }
}
