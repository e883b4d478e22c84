/** Storing a credential over the wire: the host's quoting of its two free-form
    fields against the robot's tokenizer. */
module Credentials {
  import opened CommandLine
  import opened Options
  import opened Texts
  import opened WireText

  // ---- the host's side ------------------------------------------------------------

  function Escaped(value: string): string {
    if value == "" then ""
    else (if value[0] == '"' then "\\\"" else [value[0]]) + Escaped(value[1..])
  }

  /** _wifi_quote_field() */
  function QuoteField(value: string): string {
    if NeedsQuotes(value) then "\"" + Escaped(value) + "\"" else value
  }

  /** wificred_set()'s command, */
  function SetCommand(slot: int, ssid: string, password: string): string {
    Then("WIFICRED", Then("SET", Then(Signed(slot), Then(QuoteField(ssid), QuoteField(password)))))
  }

  /** and what it goes out as: the link gives it an id, unless there is a `#` in it. */
  function SetLine(slot: int, ssid: string, password: string, id: int): string {
    Wire(SetCommand(slot, ssid, password), id)
  }

  // ---- one field there and back ---------------------------------------------------

  predicate EndsInBackslash(value: string) {
    value != "" && value[|value| - 1] == '\\'
  }

  /** A field survives unless it is empty, or needs quotes and ends in a backslash. */
  predicate Storable(value: string) {
    value != "" && !((' ' in value || '"' in value) && EndsInBackslash(value))
  }

  function Closed(value: string, rest: string): string {
    Escaped(value) + "\"" + rest
  }

  /** How the decoder takes the first character of a value that has more to come, or
      that does not clash with the closing quote. */
  lemma FirstCharacter(value: string, rest: string)
    requires Separated(rest) && value != "" && value != "\\"
    ensures var (s, t) := (Closed(value, rest), Closed(value[1..], rest));
      var n := if value[0] == '"' then 2 else 1;
      && |s| == n + |t| && s[n..] == t
      && QuotedField(s) == ([value[0]] + QuotedField(t).0, n + QuotedField(t).1)
  {
    ClosedSplits(value, rest);
    var t := Closed(value[1..], rest);
    hide Closed, QuotedField;
    if value[0] == '"' {
      EscapedQuoteDecodes(t);
    } else {
      PlainCharacterDecodes(value[0], t);
    }
  }

  lemma ClosedSplits(value: string, rest: string)
    requires value != ""
    ensures var t := Closed(value[1..], rest);
      && Closed(value, rest) == (if value[0] == '"' then "\\\"" else [value[0]]) + t
      && t != "" && (|value| > 1 ==> t[0] != '"')
  {
    hide QuotedField;
  }

  lemma EscapedQuoteDecodes(t: string)
    ensures var s := "\\\"" + t; s[2..] == t && QuotedField(s) == (['"'] + QuotedField(t).0, 2 + QuotedField(t).1)
  {
    var s := "\\\"" + t;
    assert s[2..] == t;
  }

  lemma PlainCharacterDecodes(c: char, t: string)
    requires c != '"' && t != "" && (c == '\\' ==> t[0] != '"')
    ensures var s := [c] + t; s[1..] == t && QuotedField(s) == ([c] + QuotedField(t).0, 1 + QuotedField(t).1)
  {
    var s := [c] + t;
    assert s[1..] == t;
  }

  lemma LastCharacter(rest: string)
    requires Separated(rest)
    ensures QuotedField(Closed("", rest)) == ("", 1) && Closed("", rest)[1..] == rest
    ensures var field := QuotedField(Closed("\\", rest)).0; field != "" && field[0] == '"'
  {
    assert Closed("", rest) == "\"" + rest;
    assert Closed("\\", rest) == "\\\"" + rest;
  }

  lemma {:induction false} EscapedReadsBack(value: string, rest: string)
    requires Separated(rest) && !EndsInBackslash(value)
    ensures var s := Closed(value, rest); QuotedField(s).0 == value && s[QuotedField(s).1..] == rest
  {
    hide Closed, QuotedField;
    if value == "" {
      LastCharacter(rest);
    } else {
      FirstCharacter(value, rest);
      EscapedReadsBack(value[1..], rest);
      var n := if value[0] == '"' then 2 else 1;
      var s, t := Closed(value, rest), Closed(value[1..], rest);
      assert s[QuotedField(s).1..] == s[n..][QuotedField(t).1..];
    }
  }

  /** A value ending in a backslash escapes its own closing quote. */
  lemma {:induction false} BackslashSwallowsTheQuote(value: string, rest: string)
    requires Separated(rest) && EndsInBackslash(value)
    ensures var field := QuotedField(Closed(value, rest)).0; |field| >= |value| && field[|value| - 1] == '"'
  {
    hide Closed, QuotedField;
    if value == "\\" {
      LastCharacter(rest);
    } else {
      FirstCharacter(value, rest);
      BackslashSwallowsTheQuote(value[1..], rest);
    }
  }

  /** A field followed by a separator is read as itself exactly when it is storable;
      an empty one is not read at all. */
  lemma FieldReadsBackIff(value: string, rest: string)
    requires Separated(rest)
    ensures Storable(value) ==> Tokens(QuoteField(value) + rest) == [value] + Tokens(rest)
    ensures value != "" && !Storable(value) ==> ReadsOtherwise(value, Tokens(QuoteField(value) + rest))
    ensures value == "" ==> QuoteField(value) + rest == rest
  {
    if NeedsQuotes(value) {
      var inside := Closed(value, rest);
      QuotedFieldFirst(value, rest);
      hide Tokens, Closed, QuotedField;
      if EndsInBackslash(value) {
        BackslashSwallowsTheQuote(value, rest);
        assert value[|value| - 1] != QuotedField(inside).0[|value| - 1];
      } else {
        EscapedReadsBack(value, rest);
      }
    } else if value != "" {
      PlainWordReadsBack(value, rest);
    } else {
      assert "" + rest == rest;
    }
  }

  ghost predicate ReadsOtherwise(value: string, tokens: seq<string>) {
    tokens != [] && tokens[0] != value && tokens[0] != ""
  }

  lemma QuotedFieldFirst(value: string, rest: string)
    requires NeedsQuotes(value)
    ensures var inside := Closed(value, rest);
      Tokens(QuoteField(value) + rest) == [QuotedField(inside).0] + Tokens(inside[QuotedField(inside).1..])
  {
    hide QuotedField, Escaped, Tokens;
    var inside := Closed(value, rest);
    var line := QuoteField(value) + rest;
    assert line == "\"" + inside;
    assert line[1..] == inside;
    FieldStep(line);
    assert line[1 + QuotedField(inside).1..] == inside[QuotedField(inside).1..];
  }

  // ---- the whole line ---------------------------------------------------------------------

  /** The robot hands exactly this credential to its store: the line has a verb, four
      fields that are these, and one more for the id. */
  ghost predicate Delivered(line: string, slot: int, ssid: string, password: string) {
    var tokens := Tokens(Received(line));
    |tokens| == 6 && tokens[..5] == ["WIFICRED", "SET", Signed(slot), ssid, password]
  }

  /** As above, of the tokens behind the slot. */
  predicate Ends(tokens: seq<string>, ssid: string, password: string) {
    |tokens| == 3 && tokens[0] == ssid && tokens[1] == password
  }

  /** The two fields with the id behind them. */
  lemma FieldsReadBackIff(ssid: string, password: string, id: int)
    ensures var all := Tokens(Then(QuoteField(ssid), Then(QuoteField(password), "#" + Signed(id))));
      && (Ends(all, ssid, password) <==> Storable(ssid) && Storable(password))
      && (Ends(all, ssid, password) ==> all[2] == "#" + Signed(id))
  {
    var word := "#" + Signed(id);
    var second := Then(QuoteField(password), word);
    HashWordReadsBack(id);
    AfterSeparator(word);
    AfterSeparator(second);
    FieldReadsBackIff(password, " " + word);
    FieldReadsBackIff(ssid, " " + second);
    hide Tokens, QuoteField, NeedsQuotes, Storable, ReadsOtherwise;
    BothOrNeither(ssid, password, word, Tokens(Then(QuoteField(ssid), second)), Tokens(second));
  }

  lemma BothOrNeither(ssid: string, password: string, id: string, all: seq<string>, tail: seq<string>)
    requires if Storable(ssid) then all == [ssid] + tail
             else if ssid == "" then all == tail else ReadsOtherwise(ssid, all)
    requires if Storable(password) then tail == [password] + [id]
             else if password == "" then tail == [id] else ReadsOtherwise(password, tail)
    ensures Ends(all, ssid, password) <==> Storable(ssid) && Storable(password)
    ensures Ends(all, ssid, password) ==> all[2] == id
  {
    hide NeedsQuotes, EndsInBackslash;
    assert all == [ssid] + tail ==> tail == all[1..];
  }

  /** Without an id behind it the password is the last token, or misread. */
  lemma LastFieldStandsAlone(password: string, text: string)
    requires text == StripReturn(QuoteField(password))
    ensures var tail := Tokens(text);
      (tail != [] ==> tail[0] != "") && (|tail| >= 2 ==> tail[0] != password)
  {
    if NeedsQuotes(password) {
      FieldReadsBackIff(password, "");
      assert text + "" == text && text == QuoteField(password);
    } else if text != "" {
      PlainWordReadsBack(text, "");
      assert text + "" == text;
    }
  }

  /** So without an id the two fields are never the last but one. */
  lemma NoIdNotRead(ssid: string, password: string, text: string)
    requires text == StripReturn(QuoteField(password))
    ensures !Ends(Tokens(Then(QuoteField(ssid), text)), ssid, password)
  {
    LastFieldStandsAlone(password, text);
    AfterSeparator(text);
    FieldReadsBackIff(ssid, " " + text);
    hide Tokens, QuoteField, NeedsQuotes, EndsInBackslash;
    var all, tail := Tokens(Then(QuoteField(ssid), text)), Tokens(text);
    assert all == [ssid] + tail ==> tail == all[1..];
  }

  /** SET hands the store exactly the credential it was given if and only if both fields
      are non-empty, free of line ends and of `#`, and need no quotes around a final
      backslash, and the line has no more than 239 bytes; and then under the id the link
      gave it. */
  lemma StoredIff(slot: int, ssid: string, password: string, id: int)
    ensures var line := SetLine(slot, ssid, password, id);
      Delivered(line, slot, ssid, password)
      <==> && Storable(ssid) && OneLine(ssid) && '#' !in ssid
           && Storable(password) && OneLine(password) && '#' !in password
           && |line| <= 239
    ensures var line := SetLine(slot, ssid, password, id);
      Delivered(line, slot, ssid, password) && 0 <= id <= 0xFFFFFFFF ==> ReadId(Received(line)) == Some(id)
  {
    var line := SetLine(slot, ssid, password, id);
    hide Tokens, Received, Storable, Signed, ReadId;
    if !OneLine(ssid) || !OneLine(password) {
      TextKeepsOut(slot, ssid, password, line);
    } else {
      HashIn(slot, ssid, password);
      CommandIsOneLine(slot, ssid, password);
      if '#' in ssid || '#' in password {
        HashIsNotStored(slot, ssid, password, id);
      } else {
        PlainIsStoredIff(slot, ssid, password, id);
      }
    }
  }

  lemma {:induction false} HashInField(value: string)
    ensures '#' in QuoteField(value) <==> '#' in value
    ensures '#' in Escaped(value) <==> '#' in value
  {
    if value != "" {
      HashInField(value[1..]);
    }
  }

  lemma HashIn(slot: int, ssid: string, password: string)
    ensures '#' in SetCommand(slot, ssid, password) <==> '#' in ssid || '#' in password
  {
    HashInField(ssid);
    HashInField(password);
    assert '#' !in Signed(slot) && '#' !in "WIFICRED" && '#' !in "SET" && '#' !in " ";
    hide QuoteField, Signed;
  }

  lemma OverlongIsNotStored(line: string, slot: int, ssid: string, password: string)
    requires Received(line) == ""
    ensures !Delivered(line, slot, ssid, password)
  {}

  /** A line without an id reaches the store with no credential, or with another. */
  lemma HashIsNotStored(slot: int, ssid: string, password: string, id: int)
    requires '#' in SetCommand(slot, ssid, password) && OneLine(SetCommand(slot, ssid, password))
    ensures !Delivered(SetLine(slot, ssid, password, id), slot, ssid, password)
  {
    hide Tokens, Received, QuoteField, StripReturn, Then, Signed, SetCommand, Ends;
    var line := SetLine(slot, ssid, password, id);
    if |line| > LINE_BYTES {
      OverlongIsNotStored(line, slot, ssid, password);
    } else {
      var text := StripReturn(QuoteField(password));
      var fields := Then(QuoteField(ssid), text);
      NoIdNotRead(ssid, password, text);
      StrippedCommand(slot, ssid, password);
      HeadReadsBack(slot, fields);
      SameHead(slot, ssid, password, Tokens(fields));
    }
  }

  lemma StrippedCommand(slot: int, ssid: string, password: string)
    ensures StripReturn(SetCommand(slot, ssid, password)) ==
      Then("WIFICRED", Then("SET", Then(Signed(slot), Then(QuoteField(ssid), StripReturn(QuoteField(password))))))
  {
    var f2 := Then(QuoteField(ssid), QuoteField(password));
    StripThen(QuoteField(ssid), QuoteField(password));
    StripThen(Signed(slot), f2);
    StripThen("SET", Then(Signed(slot), f2));
    StripThen("WIFICRED", Then("SET", Then(Signed(slot), f2)));
    hide StripReturn, Then, QuoteField, Signed;
  }

  lemma StripThen(word: string, text: string)
    ensures StripReturn(Then(word, text)) == Then(word, StripReturn(text))
  {
    var line := Then(word, text);
    if text == "" {
      assert line == word + " ";
    } else {
      assert line[|line| - 1] == text[|text| - 1];
      assert line[..|line| - 1] == word + (" " + text[..|text| - 1]);
    }
  }

  lemma PlainIsStoredIff(slot: int, ssid: string, password: string, id: int)
    requires '#' !in SetCommand(slot, ssid, password) && OneLine(SetCommand(slot, ssid, password))
    ensures var line := SetLine(slot, ssid, password, id);
      Delivered(line, slot, ssid, password) <==> Storable(ssid) && Storable(password) && |line| <= LINE_BYTES
    ensures var line := SetLine(slot, ssid, password, id);
      Delivered(line, slot, ssid, password) && 0 <= id <= MAX_SEQUENCE_ID ==> ReadId(Received(line)) == Some(id)
  {
    hide Tokens, Received, QuoteField, Storable, Then, Signed, SetCommand, WithId, ReadId, Ends;
    var command := SetCommand(slot, ssid, password);
    var line := WithId(command, id);
    ReceivedWithId(command, id);
    if |line| > LINE_BYTES {
      OverlongIsNotStored(line, slot, ssid, password);
    } else {
      var fields := Then(QuoteField(ssid), Then(QuoteField(password), "#" + Signed(id)));
      IdIsLastField(slot, ssid, password, id);
      FieldsReadBackIff(ssid, password, id);
      HeadReadsBack(slot, fields);
      SameHead(slot, ssid, password, Tokens(fields));
      if Ends(Tokens(fields), ssid, password) {
        IdApart(command, id, ["WIFICRED", "SET", Signed(slot)], Tokens(fields), ssid, password);
        IdReadsBackIff(command, id);
      }
    }
  }

  lemma IdApart(command: string, id: int, head: seq<string>, fields: seq<string>, ssid: string, password: string)
    requires Tokens(WithId(command, id)) == head + fields
    requires Ends(fields, ssid, password) && fields[2] == "#" + Signed(id)
    ensures IdStands(command, id)
  {
    SignedIsBare(id);
    WithIdIs(command, id);
    assert ' ' !in "#" + Signed(id);
    hide Tokens, WithId, Then, Bare, Signed, Lost;
    ApartLosesNothing(command, "#" + Signed(id));
    var all := head + fields;
    assert all[|all| - 1] == fields[2];
  }

  lemma IdIsLastField(slot: int, ssid: string, password: string, id: int)
    ensures WithId(SetCommand(slot, ssid, password), id) ==
      Then("WIFICRED", Then("SET", Then(Signed(slot),
        Then(QuoteField(ssid), Then(QuoteField(password), "#" + Signed(id))))))
  {
    var end := " #" + Signed(id);
    var f2 := Then(QuoteField(ssid), QuoteField(password));
    assert QuoteField(password) + end == Then(QuoteField(password), "#" + Signed(id));
    ThenAppended(QuoteField(ssid), QuoteField(password), end);
    ThenAppended(Signed(slot), f2, end);
    ThenAppended("SET", Then(Signed(slot), f2), end);
    ThenAppended("WIFICRED", Then("SET", Then(Signed(slot), f2)), end);
    var command := SetCommand(slot, ssid, password);
    assert WithId(command, id) == command + end;
    hide Then, QuoteField, Signed;
  }

  lemma ThenAppended(word: string, text: string, end: string)
    ensures Then(word, text) + end == Then(word, text + end)
  {
    assert word + (" " + text) + end == word + (" " + (text + end));
  }

  lemma SameHead(slot: int, ssid: string, password: string, tail: seq<string>)
    ensures var all := ["WIFICRED", "SET", Signed(slot)] + tail;
      (|all| == 6 && all[..5] == ["WIFICRED", "SET", Signed(slot), ssid, password]) <==> Ends(tail, ssid, password)
  {
    var all := ["WIFICRED", "SET", Signed(slot)] + tail;
    hide Signed;
    if |tail| == 3 {
      assert all[3] == tail[0] && all[4] == tail[1];
      assert all[..5] == ["WIFICRED", "SET", Signed(slot), tail[0], tail[1]];
    }
  }

  /** The smallest credential the quoting loses: one space, one backslash. */
  lemma SpaceThenBackslashIsLost(id: int)
    ensures !Delivered(SetLine(0, " \\", "pw", id), 0, " \\", "pw")
  {
    assert NeedsQuotes(" \\") && EndsInBackslash(" \\");
    StoredIff(0, " \\", "pw", id);
    hide Delivered, SetLine, NeedsQuotes, EndsInBackslash;
  }

  /** A line end inside a field never reaches a token. */
  lemma TextKeepsOut(slot: int, ssid: string, password: string, line: string)
    requires !(OneLine(ssid) && OneLine(password))
    ensures !Delivered(line, slot, ssid, password)
  {
    TokensMakeNothingUp('\n', Received(line));
    TokensMakeNothingUp('\0', Received(line));
    hide Tokens, Received, Signed;
    var tokens := Tokens(Received(line));
    assert |tokens| == 6 ==> tokens[..5][3] == tokens[3] && tokens[..5][4] == tokens[4];
  }

  lemma CommandIsOneLine(slot: int, ssid: string, password: string)
    requires OneLine(ssid) && OneLine(password)
    ensures OneLine(SetCommand(slot, ssid, password))
  {
    OneLineStays(ssid);
    OneLineStays(password);
    assert OneLine(Signed(slot)) && OneLine("SET") && OneLine("WIFICRED");
    var t3 := Then(QuoteField(ssid), QuoteField(password));
    var t2 := Then(Signed(slot), t3);
    ThenIsOneLine(QuoteField(ssid), QuoteField(password));
    ThenIsOneLine(Signed(slot), t3);
    ThenIsOneLine("SET", t2);
    ThenIsOneLine("WIFICRED", Then("SET", t2));
    hide OneLine, Then, QuoteField, Signed;
  }

  lemma ThenIsOneLine(word: string, text: string)
    requires OneLine(word) && OneLine(text)
    ensures OneLine(Then(word, text))
  {}

  lemma HeadReadsBack(slot: int, fields: string)
    ensures Tokens(Then("WIFICRED", Then("SET", Then(Signed(slot), fields))))
      == ["WIFICRED", "SET", Signed(slot)] + Tokens(fields)
  {
    HeadIsPlain(slot);
    hide *;
    var word := Signed(slot);
    LeadingWord(word, fields);
    LeadingWord("SET", Then(word, fields));
    LeadingWord("WIFICRED", Then("SET", Then(word, fields)));
    ThreeThenMore("WIFICRED", "SET", word, Tokens(fields));
  }

  lemma HeadIsPlain(slot: int)
    ensures !NeedsQuotes("SET") && !NeedsQuotes("WIFICRED") && !NeedsQuotes(Signed(slot))
  {}

  lemma ThreeThenMore(a: string, b: string, c: string, more: seq<string>)
    ensures [a] + ([b] + ([c] + more)) == [a, b, c] + more
  {}

  lemma {:induction false} OneLineStays(value: string)
    requires OneLine(value)
    ensures OneLine(QuoteField(value)) && OneLine(Escaped(value))
  {
    if value != "" {
      OneLineStays(value[1..]);
    }
  }
}
