/** The robot's tokenizer as it runs: in place, over a buffer ending in a NUL, each
    token left behind as a NUL-terminated string, and the id read through a pointer
    taken before. */
module Tokenizer {
  import opened CommandLine
  import opened Options
  import opened Texts
  import opened WireText

  /** The buffer holds `word`, closed by a NUL, from `start` on. */
  ghost predicate Holds(buffer: seq<char>, start: nat, word: string) {
    && start + |word| < |buffer| && buffer[start..start + |word|] == word
    && buffer[start + |word|] == NUL && NUL !in word
  }

  ghost predicate HoldsAll(buffer: seq<char>, starts: seq<nat>, words: seq<string>) {
    |starts| == |words| && forall k :: 0 <= k < |words| ==> Holds(buffer, starts[k], words[k])
  }

  /** Every held word, and the NUL behind it, lies before `end`. */
  ghost predicate AllBefore(starts: seq<nat>, words: seq<string>, end: nat) {
    |starts| == |words| && forall k :: 0 <= k < |words| ==> starts[k] + |words[k]| < end
  }

  /** Decode a quoted field over itself. `out` trails `scan`, so nothing unread is lost. */
  method DecodeQuoted(line: array<char>, p: nat, end: nat) returns (out: nat, scan: nat)
    requires p <= end < line.Length && line[end] == NUL && NUL !in line[p..end]
    modifies line
    ensures var field := QuotedField(old(line[p..end]));
      p <= out <= end && line[p..out] == field.0 && scan == p + field.1 <= end
    ensures line[out] == NUL && (out < scan || out == scan == end)
    ensures line[..p] == old(line[..p]) && line[out + 1..] == old(line[out + 1..])
  {
    hide QuotedField, HalfDone, Escape, Closing, Closes;
    ghost var was := line[..];
    ghost var field := QuotedField(was[p..end]);
    out, scan := p, p;
    ghost var done := "";
    NothingDone(was, p, field.0);
    while scan < end
      invariant p <= out <= scan <= end && HalfDone(line[..], was, p, out, scan, done)
      invariant field.0 == done + QuotedField(was[scan..end]).0
      invariant field.1 == scan - p + QuotedField(was[scan..end]).1
      decreases end - scan
    {
      ghost var left, before := was[scan..end], line[..];
      Unread(line[..], was, p, out, scan, end, done);
      if line[scan] == '\\' && line[scan + 1] == '"' {
        EscapeMore(left, done);
        Written(line[..], was, p, out, scan, done, '"', scan + 2);
        line[out] := '"';
        done := done + ['"'];
        out, scan := out + 1, scan + 2;
      } else if line[scan] == '"' && (line[scan + 1] == NUL || line[scan + 1] == ' ') {
        ClosingMore(left, done);
        Finished(line[..], was, p, out, scan, done);
        line[out] := NUL;
        assert line[..] == before[out := NUL];
        return out, scan + 1;
      } else {
        PlainMore(left, done);
        Written(line[..], was, p, out, scan, done, line[scan], scan + 1);
        done := done + [line[scan]];
        line[out] := line[scan];
        out, scan := out + 1, scan + 1;
      }
      assert line[..] == before[out - 1 := line[out - 1]];
    }
    EndMore(done);
    Finished(line[..], was, p, out, scan, done);
    ghost var before := line[..];
    line[out] := NUL;
    assert line[..] == before[out := NUL];
  }

  /** Decoded so far: `done` lies at `p`, and nothing behind it has been touched. */
  ghost predicate HalfDone(buffer: seq<char>, was: seq<char>, p: nat, out: nat, scan: nat, done: string) {
    && |buffer| == |was| && p <= out <= scan <= |was|
    && buffer[..p] == was[..p] && buffer[out..] == was[out..] && buffer[p..out] == done
  }

  lemma NothingDone(was: seq<char>, p: nat, field: string)
    requires p <= |was|
    ensures HalfDone(was, was, p, p, p, "") && "" + field == field
  {}

  lemma Unread(buffer: seq<char>, was: seq<char>, p: nat, out: nat, scan: nat, end: nat, done: string)
    requires HalfDone(buffer, was, p, out, scan, done) && scan < end < |was|
    requires was[end] == NUL && NUL !in was[p..end]
    ensures var left, c, next := was[scan..end], buffer[scan], buffer[scan + 1];
      && c == left[0]
      && (Escape(left) <==> c == '\\' && next == '"')
      && (Closing(left) <==> c == '"' && (next == NUL || next == ' '))
      && (Escape(left) ==> scan + 2 <= end && left[2..] == was[scan + 2..end])
      && left[1..] == was[scan + 1..end]
  {
    assert buffer[out..][scan - out] == buffer[scan] && buffer[out..][scan + 1 - out] == buffer[scan + 1];
    assert scan + 1 < end ==> was[scan + 1] == was[p..end][scan + 1 - p];
  }

  lemma Written(buffer: seq<char>, was: seq<char>, p: nat, out: nat, scan: nat, done: string, c: char, next: nat)
    requires HalfDone(buffer, was, p, out, scan, done) && scan < next <= |was|
    ensures out < |buffer| && HalfDone(buffer[out := c], was, p, out + 1, next, done + [c])
  {
    var after := buffer[out := c];
    assert after[out + 1..] == buffer[out + 1..] == buffer[out..][1..];
    assert after[p..out + 1] == buffer[p..out] + [c];
  }

  lemma Finished(buffer: seq<char>, was: seq<char>, p: nat, out: nat, scan: nat, done: string)
    requires HalfDone(buffer, was, p, out, scan, done) && scan < |was|
    ensures var after := buffer[out := NUL];
      after[..p] == was[..p] && after[p..out] == done && after[out + 1..] == was[out + 1..]
  {
    var after := buffer[out := NUL];
    assert after[out + 1..] == buffer[out + 1..] == buffer[out..][1..];
    assert after[p..out] == buffer[p..out];
  }

  // ---- one character of a quoted field -----------------------------------------------------

  lemma EscapeMore(s: string, done: string)
    requires Escape(s)
    ensures QuotedField(s).1 == 2 + QuotedField(s[2..]).1
    ensures done + QuotedField(s).0 == done + ['"'] + QuotedField(s[2..]).0
  {}

  lemma ClosingMore(s: string, done: string)
    requires Closing(s)
    ensures QuotedField(s).1 == 1 && done + QuotedField(s).0 == done
  {}

  lemma PlainMore(s: string, done: string)
    requires s != "" && !Escape(s) && !Closing(s)
    ensures QuotedField(s).1 == 1 + QuotedField(s[1..]).1
    ensures done + QuotedField(s).0 == done + [s[0]] + QuotedField(s[1..]).0
  {}

  lemma EndMore(done: string)
    ensures QuotedField("").1 == 0 && done + QuotedField("").0 == done
  {}

  // ---- the whole line -----------------------------------------------------------------------

  /** Words already taken are safe from writes at `p` and beyond. */
  lemma TakenStay(before: seq<char>, after: seq<char>, starts: seq<nat>, words: seq<string>, p: nat)
    requires HoldsAll(before, starts, words) && AllBefore(starts, words, p)
    requires p <= |before| == |after| && before[..p] == after[..p]
    ensures HoldsAll(after, starts, words)
  {
    forall k | 0 <= k < |words|
      ensures Holds(after, starts[k], words[k])
    {
      HeldStays(before, after, starts[k], words[k], p);
    }
  }

  lemma HeldStays(before: seq<char>, after: seq<char>, start: nat, word: string, p: nat)
    requires Holds(before, start, word) && start + |word| < p <= |before| == |after| && before[..p] == after[..p]
    ensures Holds(after, start, word)
  {
    assert forall i :: 0 <= i < p ==> after[i] == after[..p][i] == before[..p][i] == before[i];
    assert after[start..start + |word|] == before[start..start + |word|];
  }

  /** One more word taken at `start`, if there is still room to record it. */
  ghost predicate Took(before: seq<nat>, after: seq<nat>, count: nat, maxTokens: nat, start: nat) {
    after == if count < maxTokens then before + [start] else before
  }

  lemma Recorded(before: seq<nat>, after: seq<nat>, count: nat, maxTokens: nat, start: nat)
    requires after == if count < maxTokens then before + [start] else before
    ensures Took(before, after, count, maxTokens, start)
  {}

  ghost predicate Stored(buffer: seq<char>, starts: seq<nat>, words: seq<string>, maxTokens: nat) {
    && |starts| == (if |words| < maxTokens then |words| else maxTokens)
    && HoldsAll(buffer, starts, words[..|starts|])
  }

  lemma StoreOne(buffer: seq<char>, starts: seq<nat>, words: seq<string>, maxTokens: nat,
                 start: nat, word: string, more: seq<nat>)
    requires Stored(buffer, starts, words, maxTokens) && Holds(buffer, start, word)
    requires Took(starts, more, |words|, maxTokens, start)
    ensures Stored(buffer, more, words + [word], maxTokens)
  {
    hide Holds;
    if |words| < maxTokens {
      assert (words + [word])[..|more|] == words + [word] && words[..|starts|] == words;
    } else {
      assert (words + [word])[..|more|] == words[..|starts|];
    }
  }

  lemma StoredStay(before: seq<char>, after: seq<char>, starts: seq<nat>, words: seq<string>, maxTokens: nat, p: nat)
    requires Stored(before, starts, words, maxTokens) && AllBefore(starts, words[..|starts|], p)
    requires p <= |before| == |after| && before[..p] == after[..p]
    ensures Stored(after, starts, words, maxTokens)
  {
    TakenStay(before, after, starts, words[..|starts|], p);
  }

  lemma BeforeExtends(starts: seq<nat>, words: seq<string>, p: nat, more: seq<nat>, maxTokens: nat,
                      start: nat, word: string, next: nat)
    requires |starts| == (if |words| < maxTokens then |words| else maxTokens)
    requires AllBefore(starts, words[..|starts|], p) && p <= next && start + |word| < next
    requires Took(starts, more, |words|, maxTokens, start)
    ensures AllBefore(more, (words + [word])[..|more|], next)
  {}

  lemma NothingStored(buffer: seq<char>, maxTokens: nat, p: nat)
    ensures Stored(buffer, [], [], maxTokens) && AllBefore([], [], p)
  {}

  lemma BareToken(s: string, n: nat)
    requires s != "" && s[0] != '"' && 0 < n <= |s|
    requires ' ' !in s[..n] && (n < |s| ==> s[n] == ' ')
    ensures Tokens(s) == [s[..n]] + Tokens(if n < |s| then s[n + 1..] else "")
    ensures Tokenized(s) == if n < |s| then s[..n] + [NUL] + Tokenized(s[n + 1..]) else s
  {
    hide Tokens, Tokenized;
    assert s == s[..n] + s[n..] && s[0] == s[..n][0];
    WordRun(s[..n], s[n..]);
    WordStep(s);
    TokenizedWord(s);
    if n < |s| {
      SpaceStep(s[n..]);
      assert s[n..][1..] == s[n + 1..];
    } else {
      assert s[n..] == "";
    }
  }

  /** A word closed by a NUL over the byte behind it. */
  lemma BareClosed(was: seq<char>, p: nat, q: nat, end: nat)
    requires p < q < end < |was| && NUL !in was[p..end]
    ensures var b, word := was[q := NUL], was[p..q];
      && b[p..q + 1] == word + [NUL] && Holds(b, p, word)
      && b[..p] == was[..p] && b[q + 1..] == was[q + 1..]
  {
    assert was[p..q] == was[p..end][..q - p];
  }

  /** A word that runs to the end of the line. */
  lemma BareAtEnd(was: seq<char>, p: nat, end: nat)
    requires p < end < |was| && NUL !in was[p..end] && was[end] == NUL
    ensures Holds(was, p, was[p..end]) && was[p..end] + Tokenized(was[end..end]) == was[p..end]
  {
    assert was[end..end] == "" && was[p..end] + "" == was[p..end];
    TokenizedNothing();
  }

  /** Where the word at `p` ends. */
  method FindSeparator(line: array<char>, p: nat, end: nat) returns (q: nat)
    requires p < end < line.Length && line[p] != ' '
    ensures p < q <= end && ' ' !in line[p..q] && (q < end ==> line[q] == ' ')
  {
    q := p + 1;
    while q < end && line[q] != ' '
      invariant p < q <= end && ' ' !in line[p..q]
    {
      assert line[p..q + 1] == line[p..q] + [line[q]];
      q := q + 1;
    }
  }

  lemma BareSplit(was: seq<char>, p: nat, q: nat, end: nat)
    requires p < q <= end <= |was| && was[p] != '"' && ' ' !in was[p..q] && (q < end ==> was[q] == ' ')
    ensures var left := was[p..end];
      && Tokens(left) == [was[p..q]] + Tokens(if q < end then was[q + 1..end] else "")
      && Tokenized(left) == if q < end then was[p..q] + [NUL] + Tokenized(was[q + 1..end]) else left
  {
    var left := was[p..end];
    hide Tokens, Tokenized;
    assert left[..q - p] == was[p..q] && left[0] == was[p];
    assert q < end ==> left[q - p] == was[q] && left[q - p + 1..] == was[q + 1..end];
    BareToken(left, q - p);
  }

  /** Take the bare word at `p`: find its end, and close it over its separator. */
  method TakeBare(line: array<char>, p: nat, end: nat) returns (next: nat, ghost word: string)
    requires p < end < line.Length && line[end] == NUL && NUL !in line[p..end] && line[p] != ' ' && line[p] != '"'
    modifies line
    ensures p < next <= end && Tokens(old(line[p..end])) == [word] + Tokens(old(line[next..end]))
    ensures Tokenized(old(line[p..end])) == line[p..next] + Tokenized(old(line[next..end]))
    ensures Holds(line[..], p, word) && (p + |word| < next || next == end)
    ensures line[..p] == old(line[..p]) && line[next..] == old(line[next..])
  {
    hide *;
    ghost var was := line[..];
    var q := FindSeparator(line, p, end);
    word := was[p..q];
    BareSplit(was, p, q, end);
    if q == end {
      next := end;
      BareAtEnd(was, p, end);
      assert was[end..end] == "";
    } else {
      BareClosed(was, p, q, end);
      line[q] := NUL;
      next := q + 1;
      assert line[..] == was[q := NUL];
    }
  }

  /** Take the quoted field at `p`. */
  method TakeQuoted(line: array<char>, p: nat, end: nat) returns (next: nat, ghost word: string)
    requires p < end < line.Length && line[end] == NUL && NUL !in line[p..end] && line[p] == '"'
    modifies line
    ensures p < next <= end && Tokens(old(line[p..end])) == [word] + Tokens(old(line[next..end]))
    ensures Tokenized(old(line[p..end])) == line[p..next] + Tokenized(old(line[next..end]))
    ensures Holds(line[..], p + 1, word) && (p + 1 + |word| < next || next == end)
    ensures line[..p] == old(line[..p]) && line[next..] == old(line[next..])
  {
    hide *;
    ghost var was, left := line[..], line[p..end];
    FieldStep(left);
    TokenizedField(left);
    assert left[1..] == was[p + 1..end];
    FieldMakesNothingUp(NUL, left[1..]);
    var out;
    out, next := DecodeQuoted(line, p + 1, end);
    word := QuotedField(left[1..]).0;
    assert left[next - p..] == was[next..end] && left[1..next - p] == was[p + 1..next];
    QuotedTaken(was, line[..], p, out, next, end, word);
    RegionLaidOver(was, line[..], p, out, next, word);
  }

  lemma QuotedTaken(was: seq<char>, buffer: seq<char>, p: nat, out: nat, next: nat, end: nat, word: string)
    requires p < out <= next <= end < |was| == |buffer| && NUL !in word && was[end] == NUL
    requires out < next || next == end
    requires buffer[..p + 1] == was[..p + 1] && buffer[p + 1..out] == word && buffer[out] == NUL
    requires buffer[out + 1..] == was[out + 1..]
    ensures Holds(buffer, p + 1, word) && buffer[..p] == was[..p] && buffer[next..] == was[next..]
  {
    assert buffer[..p] == buffer[..p + 1][..p] && was[..p] == was[..p + 1][..p];
    if out < next {
      assert buffer[next..] == buffer[out + 1..][next - out - 1..] == was[out + 1..][next - out - 1..];
    } else {
      assert buffer[next..] == [NUL] + buffer[out + 1..] && was[next..] == [NUL] + was[out + 1..];
    }
  }

  lemma RegionLaidOver(was: seq<char>, buffer: seq<char>, p: nat, out: nat, next: nat, word: string)
    requires p < out <= next < |was| == |buffer|
    requires buffer[..p + 1] == was[..p + 1] && buffer[p + 1..out] == word && buffer[out] == NUL
    requires buffer[out + 1..] == was[out + 1..]
    ensures |word| <= |was[p + 1..next]| && buffer[p..next] == [was[p]] + LaidOver(word, was[p + 1..next])
  {
    assert buffer[p] == buffer[..p + 1][p] && was[p] == was[..p + 1][p];
    assert buffer[p..next] == [buffer[p]] + buffer[p + 1..next];
    if out < next {
      ClosedRegion(was, buffer, p + 1, out, next);
    }
  }

  lemma ClosedRegion(was: seq<char>, buffer: seq<char>, from: nat, out: nat, next: nat)
    requires from <= out < next <= |was| == |buffer| && buffer[out] == NUL && buffer[out + 1..] == was[out + 1..]
    ensures buffer[from..next] == LaidOver(buffer[from..out], was[from..next])
  {
    assert buffer[out + 1..next] == buffer[out + 1..][..next - out - 1];
    assert was[out + 1..next] == was[out + 1..][..next - out - 1];
    assert was[from..next][out - from + 1..] == was[out + 1..next];
    assert buffer[from..next] == buffer[from..out] + [NUL] + buffer[out + 1..next];
  }

  /** Take the token at `p`, whichever kind it is. */
  method TakeToken(line: array<char>, p: nat, end: nat) returns (start: nat, next: nat, ghost word: string)
    requires p < end < line.Length && line[end] == NUL && NUL !in line[p..end] && line[p] != ' '
    modifies line
    ensures p < next <= end && Tokens(old(line[p..end])) == [word] + Tokens(old(line[next..end]))
    ensures Tokenized(old(line[p..end])) == line[p..next] + Tokenized(old(line[next..end]))
    ensures Holds(line[..], start, word) && (start + |word| < next || next == end)
    ensures line[..p] == old(line[..p]) && line[next..] == old(line[next..])
  {
    hide *;
    start := p;
    if line[p] == '"' {
      start := p + 1;
      next, word := TakeQuoted(line, p, end);
    } else {
      next, word := TakeBare(line, p, end);
    }
  }

  /** Up to `p` the tokens are taken and stored; from `p` on nothing has been touched. */
  ghost predicate Progress(buffer: seq<char>, was: seq<char>, p: nat, end: nat,
                           words: seq<string>, starts: seq<nat>, maxTokens: nat) {
    && p <= end < |was| == |buffer| && buffer[p..] == was[p..]
    && Tokens(was[..end]) == words + Tokens(was[p..end])
    && Tokenized(was[..end]) == buffer[..p] + Tokenized(was[p..end])
    && Stored(buffer, starts, words, maxTokens)
    && (p < end ==> AllBefore(starts, words[..|starts|], p))
  }

  lemma ProgressStarts(was: seq<char>, end: nat, maxTokens: nat)
    requires end < |was|
    ensures Progress(was, was, 0, end, [], [], maxTokens)
  {
    hide Tokens, Tokenized;
    NothingStored(was, maxTokens, 0);
    assert was[0..end] == was[..end] && [] + Tokens(was[..end]) == Tokens(was[..end]);
    assert was[..0] + Tokenized(was[..end]) == Tokenized(was[..end]);
  }

  lemma Ahead(buffer: seq<char>, was: seq<char>, p: nat, end: nat)
    requires p < end < |was| == |buffer| && buffer[p..] == was[p..] && NUL !in was[..end]
    ensures buffer[p..end] == was[p..end] && buffer[p] == was[p..end][0] && buffer[end] == was[end]
    ensures NUL !in was[p..end]
  {
    assert buffer[p] == buffer[p..][0] && buffer[end] == buffer[p..][end - p];
    assert buffer[p..end] == buffer[p..][..end - p] == was[p..][..end - p] == was[p..end];
    assert was[p..end] == was[..end][p..];
  }

  /** What is left behind `next` is what was there. */
  lemma Further(before: seq<char>, after: seq<char>, was: seq<char>, p: nat, next: nat, end: nat)
    requires p <= next <= end < |was| == |after| == |before|
    requires before[p..] == was[p..] && after[next..] == before[next..]
    ensures after[next..] == was[next..] && before[next..end] == was[next..end] && before[p..end] == was[p..end]
  {
    assert before[next..] == before[p..][next - p..] == was[p..][next - p..] == was[next..];
    assert before[next..end] == before[next..][..end - next] && was[next..end] == was[next..][..end - next];
    assert before[p..end] == before[p..][..end - p] && was[p..end] == was[p..][..end - p];
  }

  lemma ProgressOverSpace(buffer: seq<char>, was: seq<char>, p: nat, end: nat,
                          words: seq<string>, starts: seq<nat>, maxTokens: nat)
    requires Progress(buffer, was, p, end, words, starts, maxTokens) && p < end && was[p] == ' '
    ensures Progress(buffer, was, p + 1, end, words, starts, maxTokens)
  {
    hide Tokens, Tokenized, Stored, Holds, HoldsAll;
    Further(buffer, buffer, was, p, p + 1, end);
    var left := was[p..end];
    SpaceStep(left);
    TokenizedSpace(left);
    assert left[1..] == was[p + 1..end];
    assert buffer[p] == buffer[p..][0] == was[p..][0] == left[0];
    assert buffer[..p + 1] == buffer[..p] + [left[0]];
    assert buffer[..p] + ([left[0]] + Tokenized(left[1..])) == buffer[..p + 1] + Tokenized(left[1..]);
  }

  lemma ProgressOverToken(before: seq<char>, after: seq<char>, was: seq<char>, p: nat, next: nat, end: nat,
                          words: seq<string>, starts: seq<nat>, maxTokens: nat,
                          start: nat, word: string, more: seq<nat>)
    requires Progress(before, was, p, end, words, starts, maxTokens) && p < next <= end && |after| == |before|
    requires after[..p] == before[..p] && after[next..] == before[next..]
    requires Tokens(before[p..end]) == [word] + Tokens(before[next..end])
    requires Tokenized(before[p..end]) == after[p..next] + Tokenized(before[next..end])
    requires Holds(after, start, word) && (start + |word| < next || next == end)
    requires Took(starts, more, |words|, maxTokens, start)
    ensures Progress(after, was, next, end, words + [word], more, maxTokens)
  {
    hide Tokens, Tokenized, Holds, HoldsAll, Stored, AllBefore;
    Further(before, after, was, p, next, end);
    StoredStay(before, after, starts, words, maxTokens, p);
    StoreOne(after, starts, words, maxTokens, start, word, more);
    if next < end {
      StoredLength(before, starts, words, maxTokens);
      BeforeExtends(starts, words, p, more, maxTokens, start, word, next);
    }
    var rest := Tokens(was[next..end]);
    assert words + ([word] + rest) == words + [word] + rest;
    var bytes := Tokenized(was[next..end]);
    assert after[..next] == after[..p] + after[p..next];
    assert after[..p] + (after[p..next] + bytes) == after[..next] + bytes;
  }

  lemma StoredLength(buffer: seq<char>, starts: seq<nat>, words: seq<string>, maxTokens: nat)
    requires Stored(buffer, starts, words, maxTokens)
    ensures |starts| == if |words| < maxTokens then |words| else maxTokens
  {}

  lemma ProgressEnds(buffer: seq<char>, was: seq<char>, end: nat, words: seq<string>, starts: seq<nat>, maxTokens: nat)
    requires Progress(buffer, was, end, end, words, starts, maxTokens) && was[end] == NUL
    ensures Tokens(was[..end]) == words && Tokenized(was[..end]) == buffer[..end]
    ensures buffer[end] == NUL && Stored(buffer, starts, words, maxTokens)
  {
    assert was[end..end] == "" && words + [] == words && buffer[..end] + "" == buffer[..end];
    assert buffer[end] == buffer[end..][0] == was[end..][0];
    hide Stored;
  }

  lemma ProgressAhead(buffer: seq<char>, was: seq<char>, p: nat, end: nat,
                      words: seq<string>, starts: seq<nat>, maxTokens: nat)
    requires Progress(buffer, was, p, end, words, starts, maxTokens) && p < end && NUL !in was[..end]
    ensures end < |buffer| && buffer[p..end] == was[p..end] && NUL !in was[p..end]
    ensures buffer[p] == was[p] && buffer[end] == was[end]
    ensures |starts| == if |words| < maxTokens then |words| else maxTokens
  {
    Ahead(buffer, was, p, end);
    StoredLength(buffer, starts, words, maxTokens);
    hide Stored;
    assert was[p..end][0] == was[p];
  }

  /** tokenizeLine(): the count is of every token, the starts only of the first few; and
      exactly what is left of every byte of the line. */
  method TokenizeLine(line: array<char>, end: nat, maxTokens: nat) returns (count: nat, starts: seq<nat>)
    requires end < line.Length && line[end] == NUL && NUL !in line[..end]
    modifies line
    ensures var words := Tokens(old(line[..end]));
      count == |words| && Stored(line[..], starts, words, maxTokens)
    ensures line[..end] == Tokenized(old(line[..end])) && line[end] == NUL
  {
    hide *;
    ghost var was := line[..];
    ghost var words: seq<string> := [];
    count, starts := 0, [];
    var p := 0;
    ProgressStarts(was, end, maxTokens);
    assert was[..end] == line[..end];
    while p < end
      invariant p <= end && count == |words| && Progress(line[..], was, p, end, words, starts, maxTokens)
    {
      ProgressAhead(line[..], was, p, end, words, starts, maxTokens);
      if line[p] == ' ' {
        ProgressOverSpace(line[..], was, p, end, words, starts, maxTokens);
        p := p + 1;
      } else {
        ghost var before := line[..];
        ghost var word;
        var start, next;
        assert line[p..end] == before[p..end];
        start, next, word := TakeToken(line, p, end);
        var more := if count < maxTokens then starts + [start] else starts;
        Recorded(starts, more, count, maxTokens, start);
        ProgressOverToken(before, line[..], was, p, next, end, words, starts, maxTokens, start, word, more);
        words := words + [word];
        starts, count, p := more, count + 1, next;
      }
    }
    ProgressEnds(line[..], was, end, words, starts, maxTokens);
    assert line[..][..end] == line[..end];
  }

  // ---- the id, found before and read after ----------------------------------------------------

  /** findLastFieldToken(): back over the spaces at the end, and back over the token. */
  method FindLastFieldToken(line: array<char>, end: nat) returns (p: nat)
    requires end < line.Length
    ensures p == FieldStart(line[..end])
  {
    p := end;
    while p > 0 && line[p - 1] == ' '
      invariant p <= end && TrimSpaces(line[..end]) == TrimSpaces(line[..p])
    {
      assert line[..p][..p - 1] == line[..p - 1];
      p := p - 1;
    }
    ghost var trimmed := line[..p];
    while p > 0 && line[p - 1] != ' '
      invariant p <= end && TokenStart(trimmed) == TokenStart(line[..p])
    {
      assert line[..p][..p - 1] == line[..p - 1];
      p := p - 1;
    }
  }

  /** parseMandatoryId(), through a pointer into a buffer the tokenizer has been over. */
  method ParseMandatoryId(line: array<char>, p: nat, end: nat) returns (id: Option<nat>)
    requires p <= end < line.Length && line[end] == NUL
    ensures id == ParseId(Seen(line[..end], p))
  {
    hide Seen, ParseId, AllDigits, Value;
    ghost var buffer := line[..];
    NothingSeen(buffer, p, end);
    assert buffer[..end] == line[..end];
    if line[p] != '#' {
      SeenNoHash(buffer, p, end);
      return None;
    }
    var q, value := p + 1, 0;
    SeenSoFar(buffer, p, end, q);
    while line[q] != NUL
      invariant p < q <= end && NUL !in buffer[p..q] && buffer[p] == '#'
      invariant AllDigits(buffer[p + 1..q]) && value == Value(buffer[p + 1..q])
      decreases end - q
    {
      if line[q] < '0' || '9' < line[q] {
        SeenNoDigit(buffer, p, end, q);
        return None;
      }
      OneMoreDigit(buffer, p, q);
      value := value * 10 + (line[q] - '0') as nat;
      q := q + 1;
    }
    SeenWhole(buffer, p, end, q);
    if q == p + 1 || value > MAX_SEQUENCE_ID {
      return None;
    }
    return Some(value);
  }

  lemma NothingSeen(buffer: seq<char>, p: nat, end: nat)
    requires p <= end < |buffer| && buffer[end] == NUL
    ensures p == end ==> buffer[p] != '#'
  {}

  lemma SeenSoFar(buffer: seq<char>, p: nat, end: nat, q: nat)
    requires p <= end < |buffer| && buffer[end] == NUL && q == p + 1 && buffer[p] == '#'
    ensures q <= end && NUL !in buffer[p..q] && AllDigits(buffer[q..q]) && Value(buffer[q..q]) == 0
  {
    assert buffer[p..q] == ['#'];
  }

  /** As far as there is no NUL, the C string is the buffer. */
  lemma {:induction false} SeenIsBuffer(s: string, k: nat)
    requires k <= |s| && NUL !in s[..k]
    ensures k <= |Before(s, NUL)| && Before(s, NUL)[..k] == s[..k]
  {
    if k > 0 {
      assert s[..k][0] == s[0] && s[..k][1..] == s[1..][..k - 1];
      SeenIsBuffer(s[1..], k - 1);
    }
  }

  lemma SeenNoHash(buffer: seq<char>, p: nat, end: nat)
    requires p <= end < |buffer| && buffer[end] == NUL && buffer[p] != '#'
    ensures ParseId(Seen(buffer[..end], p)) == None
  {
    var s := buffer[..end][p..];
    assert s != "" ==> s[0] == buffer[p];
  }

  lemma SeenNoDigit(buffer: seq<char>, p: nat, end: nat, q: nat)
    requires p < q < end < |buffer| && NUL !in buffer[p..q] && buffer[q] != NUL && !IsDigit(buffer[q])
    ensures ParseId(Seen(buffer[..end], p)) == None
  {
    var s := buffer[..end][p..];
    var k := q - p;
    assert s[..k + 1] == buffer[p..q] + [buffer[q]];
    SeenIsBuffer(s, k + 1);
    var t := Seen(buffer[..end], p);
    assert t[k] == t[..k + 1][k] == buffer[q];
    assert t[1..][k - 1] == t[k];
  }

  lemma OneMoreDigit(buffer: seq<char>, p: nat, q: nat)
    requires p < q < |buffer| && NUL !in buffer[p..q] && IsDigit(buffer[q]) && AllDigits(buffer[p + 1..q])
    ensures NUL !in buffer[p..q + 1] && AllDigits(buffer[p + 1..q + 1])
    ensures Value(buffer[p + 1..q + 1]) == Value(buffer[p + 1..q]) * 10 + (buffer[q] - '0') as nat
  {
    var more := buffer[p + 1..q + 1];
    assert buffer[p..q + 1] == buffer[p..q] + [buffer[q]];
    assert more[..|more| - 1] == buffer[p + 1..q] && more[|more| - 1] == buffer[q];
  }

  lemma SeenWhole(buffer: seq<char>, p: nat, end: nat, q: nat)
    requires p < q <= end < |buffer| && NUL !in buffer[p..q] && buffer[q] == NUL && buffer[p] == '#'
    requires AllDigits(buffer[p + 1..q])
    ensures ParseId(Seen(buffer[..end], p)) ==
      if q == p + 1 || Value(buffer[p + 1..q]) > MAX_SEQUENCE_ID then None else Some(Value(buffer[p + 1..q]))
  {
    var token := buffer[p..q];
    assert buffer[..end][p..] == token + buffer[q..end];
    assert q < end ==> buffer[q..end][0] == buffer[q];
    BeforeIs(token, buffer[q..end], NUL);
    assert token[1..] == buffer[p + 1..q] && token[0] == '#';
  }

  /** One received line: where its id stands is found first, then the line is tokenized
      over itself, and then the id is read off what that has left there. */
  method TakeLine(line: array<char>, end: nat, maxTokens: nat)
    returns (id: Option<nat>, count: nat, starts: seq<nat>)
    requires end < line.Length && line[end] == NUL && NUL !in line[..end]
    modifies line
    ensures id == ReadId(old(line[..end]))
    ensures var words := Tokens(old(line[..end]));
      count == |words| && Stored(line[..], starts, words, maxTokens)
  {
    hide *;
    ghost var text := line[..end];
    var lastFieldToken := FindLastFieldToken(line, end);
    count, starts := TokenizeLine(line, end, maxTokens);
    ReadIdIs(text);
    if lastFieldToken == 0 {
      return None, count, starts;
    }
    id := ParseMandatoryId(line, lastFieldToken, end);
  }

  lemma ReadIdIs(text: string)
    ensures ReadId(text) ==
      if FieldStart(text) == 0 then None else ParseId(Seen(Tokenized(text), FieldStart(text)))
  {}
}
