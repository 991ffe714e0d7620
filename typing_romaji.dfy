/** The romaji matching engine of the typing game: the two static spelling
    tables, the candidate spellings at a position of a kana sentence, and the
    incremental greedy prefix matcher that consumes one Latin key at a time. */
module Romaji {
  import opened Wrappers

  /** A Latin spelling of one kana or of a two-kana group, in upper case. */
  type Spelling = string

  const SmallTsu: char := 'っ'

  /** Letters a small tsu may be typed as: the doubled consonant of the next kana. */
  const DoublingConsonants: string := "BCDFGHJKLMNPQRSTVWZ"

  predicate IsDoublingConsonant(c: char) { c in DoublingConsonants }

  /** Characters that occur in the tables. */
  predicate IsRomajiChar(c: char) { 'A' <= c <= 'Z' || c == '-' || c == '\'' }

  /** A table entry: one to three table characters. */
  predicate WellFormedEntry(r: Spelling)
  {
    0 < |r| <= 3 && IsRomajiChar(r[0]) && (|r| >= 2 ==> IsRomajiChar(r[1])) && (|r| >= 3 ==> IsRomajiChar(r[2]))
  }

  /** `c` is a non-empty proper prefix of `d`, for a `c` of at most three
      letters (every table entry is that short). */
  predicate ShortProperPrefix(c: Spelling, d: Spelling)
  {
    0 < |c| < |d| && |c| <= 3 && c[0] == d[0] && (|c| >= 2 ==> c[1] == d[1]) && (|c| >= 3 ==> c[2] == d[2])
  }

  /** No spelling in `cs` is a proper prefix of `d`: typing `d` letter by
      letter never completes one of `cs` early. */
  predicate NoProperPrefixAmong(d: Spelling, cs: seq<Spelling>)
  {
    forall m | 0 <= m < |cs| :: !ShortProperPrefix(cs[m], d)
  }

  /** The two spelling tables the matcher consults: single kana, and a kana
      together with the kana after it. A kana or pair the table lacks maps
      to no spellings. */
  datatype Tables = Tables(kana: char -> seq<Spelling>, combo: (char, char) -> seq<Spelling>)

  predicate EntriesWellFormed(rs: seq<Spelling>)
  {
    forall m | 0 <= m < |rs| :: WellFormedEntry(rs[m])
  }

  /** What the matcher relies on in the tables: every spelling is well
      formed, no pair starts with a small tsu, and the first (default)
      spelling of a kana or pair is never completed early by another
      spelling offered at the same position. */
  ghost predicate TablesOk(t: Tables)
  {
    (forall k :: EntriesWellFormed(t.kana(k))) &&
    (forall k :: t.kana(k) != [] ==> NoProperPrefixAmong(t.kana(k)[0], t.kana(k))) &&
    (forall k, n :: EntriesWellFormed(t.combo(k, n))) &&
    (forall k, n :: t.combo(k, n) != [] ==>
       k != SmallTsu && NoProperPrefixAmong(t.combo(k, n)[0], t.combo(k, n)) &&
       NoProperPrefixAmong(t.combo(k, n)[0], t.kana(k)))
  }

  /** The distinct doubling consonants among the first letters of `rs`, in
      order of first occurrence (the source's `new Set(...)` over
      `nextOptions.map(r => r[0]).filter(...)`). */
  function DoublingLetters(rs: seq<Spelling>): seq<char>
  {
    if rs == [] then []
    else
      var cs := DoublingLetters(rs[..|rs| - 1]);
      var r := rs[|rs| - 1];
      if |r| > 0 && IsDoublingConsonant(r[0]) && r[0] !in cs then cs + [r[0]] else cs
  }

  /** Each letter as a one-letter spelling. */
  function Singletons(cs: seq<char>): (rs: seq<Spelling>)
    ensures |rs| == |cs| && forall j | 0 <= j < |cs| :: rs[j] == [cs[j]]
  {
    if cs == [] then [] else [[cs[0]]] + Singletons(cs[1..])
  }

  /** Two-kana spellings that start at position `i`. */
  function ComboPart(t: Tables, s: string, i: nat): seq<Spelling>
    requires i < |s|
  {
    if i + 1 < |s| then t.combo(s[i], s[i + 1]) else []
  }

  /** One-letter spellings of a small tsu at `i`: the doubled consonant of the next kana. */
  function SokuonPart(t: Tables, s: string, i: nat): seq<Spelling>
    requires i < |s|
  {
    if s[i] == SmallTsu && i + 1 < |s| then Singletons(DoublingLetters(t.kana(s[i + 1]))) else []
  }

  /** Every spelling accepted at position `i`, in the source's order: pairs,
      then doubled consonants, then single-kana spellings. Past the end there
      are none. */
  function Candidates(t: Tables, s: string, i: nat): seq<Spelling>
  {
    if i >= |s| then [] else ComboPart(t, s, i) + SokuonPart(t, s, i) + t.kana(s[i])
  }

  /** The spellings of `cs` that start with `p` (the source's `filter(r => r.startsWith(p))`). */
  function WithPrefix(cs: seq<Spelling>, p: Spelling): seq<Spelling>
  {
    if cs == [] then [] else (if p <= cs[0] then [cs[0]] else []) + WithPrefix(cs[1..], p)
  }

  /** The filter keeps exactly the spellings that start with `p`. */
  lemma {:induction false} WithPrefixMembers(cs: seq<Spelling>, p: Spelling)
    ensures forall r :: r in WithPrefix(cs, p) <==> r in cs && p <= r
  {
    if cs != [] {
      WithPrefixMembers(cs[1..], p);
      assert cs == [cs[0]] + cs[1..];
    }
  }

  /** How many kana a completed spelling `matched` at `i` covers: two exactly
      when it is a spelling of the pair starting at `i`. It never runs past
      the end of the sentence. */
  function ConsumedCount(t: Tables, s: string, matched: Spelling, i: nat): (n: nat)
    ensures n == 1 || n == 2
    ensures n == 2 <==> i + 1 < |s| && matched in t.combo(s[i], s[i + 1])
    ensures i < |s| ==> i + n <= |s|
  {
    if i + 1 < |s| && matched in t.combo(s[i], s[i + 1]) then 2
    else if i < |s| && s[i] == SmallTsu && |matched| == 1 then 1
    else 1
  }

  datatype Status = Ok | Done | Error

  /** The matcher's progress through a sentence: kana committed, letters
      typed towards the next group, and every committed spelling so far. */
  datatype Cursor = Cursor(index: nat, buffer: Spelling, completed: Spelling)

  const Start: Cursor := Cursor(0, "", "")

  datatype StepResult = StepResult(status: Status, cursor: Cursor)

  /** One key typed at cursor `c` over sentence `s`. */
  function Step(t: Tables, s: string, c: Cursor, ch: char): StepResult
  {
    if c.index >= |s| then StepResult(Done, c)
    else
      var temp := c.buffer + [ch];
      var matches := WithPrefix(Candidates(t, s, c.index), temp);
      if matches == [] then StepResult(Error, c)
      else if temp in matches then
        var next := Cursor(c.index + ConsumedCount(t, s, temp, c.index), "", c.completed + temp);
        StepResult(if next.index >= |s| then Done else Ok, next)
      else StepResult(Ok, Cursor(c.index, temp, c.completed))
  }

  /** The matcher's invariant: the cursor lies within the sentence and a
      non-empty buffer is not itself a spelling at the cursor but a proper
      prefix of one. */
  ghost predicate Inv(t: Tables, s: string, c: Cursor)
  {
    c.index <= |s| &&
    (c.buffer != [] ==> c.buffer !in Candidates(t, s, c.index) && exists r :: r in Candidates(t, s, c.index) && c.buffer < r)
  }

  lemma StepKeepsInv(t: Tables, s: string, c: Cursor, ch: char)
    requires Inv(t, s, c)
    ensures Inv(t, s, Step(t, s, c, ch).cursor)
  {
    var r := Step(t, s, c, ch);
    if c.index < |s| && r.status == Ok && r.cursor.index == c.index {
      var temp := c.buffer + [ch];
      var matches := WithPrefix(Candidates(t, s, c.index), temp);
      WithPrefixMembers(Candidates(t, s, c.index), temp);
      assert matches != [] && temp !in matches;
      var m := matches[0];
      assert m in Candidates(t, s, c.index) && temp <= m && temp != m;
    }
  }

  /** A finished sentence takes no more input; a key that extends no spelling
      is rejected; in both cases nothing changes. A rejection happens exactly
      when no spelling at the cursor starts with buffer + key. */
  lemma {:induction false} StepRejectLeavesCursor(t: Tables, s: string, c: Cursor, ch: char)
    ensures c.index >= |s| ==> Step(t, s, c, ch) == StepResult(Done, c)
    ensures Step(t, s, c, ch).status == Error <==>
              c.index < |s| && forall r | r in Candidates(t, s, c.index) :: !(c.buffer + [ch] <= r)
    ensures Step(t, s, c, ch).status == Error ==> Step(t, s, c, ch).cursor == c
  {
    if c.index < |s| {
      var temp := c.buffer + [ch];
      var matches := WithPrefix(Candidates(t, s, c.index), temp);
      WithPrefixMembers(Candidates(t, s, c.index), temp);
      if matches != [] {
        assert matches[0] in matches;
      }
    }
  }

  /** A key that extends a spelling without completing any is buffered; the
      cursor does not move. */
  lemma StepPartialMatch(t: Tables, s: string, c: Cursor, ch: char)
    requires c.index < |s|
    requires exists r :: r in Candidates(t, s, c.index) && c.buffer + [ch] <= r
    requires c.buffer + [ch] !in Candidates(t, s, c.index)
    ensures Step(t, s, c, ch) == StepResult(Ok, Cursor(c.index, c.buffer + [ch], c.completed))
  {
    var temp := c.buffer + [ch];
    var r :| r in Candidates(t, s, c.index) && temp <= r;
    WithPrefixMembers(Candidates(t, s, c.index), temp);
    assert r in WithPrefix(Candidates(t, s, c.index), temp);
  }

  /** A key that completes a spelling commits it at once, even when a longer
      spelling shares the prefix: the typed chunk is appended to the
      committed text, the buffer empties, the cursor moves by one or two kana
      and the result is Done exactly when the sentence is finished. */
  lemma StepFullMatch(t: Tables, s: string, c: Cursor, ch: char)
    requires c.index < |s|
    requires c.buffer + [ch] in Candidates(t, s, c.index)
    ensures var temp := c.buffer + [ch];
            var n := ConsumedCount(t, s, temp, c.index);
            Step(t, s, c, ch).cursor == Cursor(c.index + n, "", c.completed + temp) &&
            c.index + n <= |s| &&
            (Step(t, s, c, ch).status == Done <==> c.index + n == |s|) &&
            (Step(t, s, c, ch).status == Ok <==> c.index + n < |s|)
  {
    var temp := c.buffer + [ch];
    WithPrefixMembers(Candidates(t, s, c.index), temp);
    assert temp in WithPrefix(Candidates(t, s, c.index), temp);
  }

  /** Every step keeps or advances the cursor by at most two kana and only
      appends to the committed text. */
  lemma StepProgress(t: Tables, s: string, c: Cursor, ch: char)
    requires Inv(t, s, c)
    ensures var n := Step(t, s, c, ch).cursor;
            c.index <= n.index <= c.index + 2 && n.index <= |s| && c.completed <= n.completed
  {
  }

  datatype RunResult = RunResult(statuses: seq<Status>, final: Cursor)

  /** The statuses and final cursor after feeding `keys` one by one to a
      step function. */
  function Feed(step: (Cursor, char) -> StepResult, c: Cursor, keys: seq<char>): (r: RunResult)
    ensures |r.statuses| == |keys|
    decreases |keys|
  {
    if keys == [] then RunResult([], c)
    else
      var first := step(c, keys[0]);
      var rest := Feed(step, first.cursor, keys[1..]);
      RunResult([first.status] + rest.statuses, rest.final)
  }

  /** The matcher for sentence `s` as a step function. */
  function Matcher(t: Tables, s: string): (Cursor, char) -> StepResult
  {
    (c, ch) => Step(t, s, c, ch)
  }

  /** The statuses and final cursor after typing `keys` into the matcher. */
  function Run(t: Tables, s: string, c: Cursor, keys: seq<char>): RunResult
  {
    Feed(Matcher(t, s), c, keys)
  }

  lemma {:induction false} FeedConcat(step: (Cursor, char) -> StepResult, c: Cursor, a: seq<char>, b: seq<char>)
    ensures Feed(step, c, a + b) ==
            RunResult(Feed(step, c, a).statuses + Feed(step, Feed(step, c, a).final, b).statuses,
                      Feed(step, Feed(step, c, a).final, b).final)
    decreases |a|
  {
    if a != [] {
      var first := step(c, a[0]);
      assert (a + b)[0] == a[0];
      assert (a + b)[1..] == a[1..] + b;
      FeedConcat(step, first.cursor, a[1..], b);
      var mid := Feed(step, first.cursor, a[1..]);
      var last := Feed(step, mid.final, b);
      assert Feed(step, c, a) == RunResult([first.status] + mid.statuses, mid.final);
      assert [first.status] + (mid.statuses + last.statuses) == [first.status] + mid.statuses + last.statuses;
    } else {
      assert a + b == b;
    }
  }

  /** Typing `a` and then `b` into the matcher is typing `a + b`. */
  lemma RunConcat(t: Tables, s: string, c: Cursor, a: seq<char>, b: seq<char>)
    ensures Run(t, s, c, a + b) ==
            RunResult(Run(t, s, c, a).statuses + Run(t, s, Run(t, s, c, a).final, b).statuses, Run(t, s, Run(t, s, c, a).final, b).final)
  {
    FeedConcat(Matcher(t, s), c, a, b);
  }

  /** Completion is terminal: once the sentence is finished every key
      reports Done and nothing changes. */
  lemma {:induction false} DoneIsTerminal(t: Tables, s: string, c: Cursor, keys: seq<char>)
    requires c.index >= |s|
    ensures Run(t, s, c, keys).final == c
    ensures forall j | 0 <= j < |keys| :: Run(t, s, c, keys).statuses[j] == Done
    decreases |keys|
  {
    if keys != [] {
      assert Matcher(t, s)(c, keys[0]) == StepResult(Done, c);
      DoneIsTerminal(t, s, c, keys[1..]);
    }
  }

  /** Every status but the last is Ok, and the last is `last`. */
  predicate OkThen(sts: seq<Status>, last: Status)
  {
    |sts| > 0 && sts[|sts| - 1] == last && forall j | 0 <= j < |sts| - 1 :: sts[j] == Ok
  }

  /** Typing the rest of a spelling `d` of position `i`, none of whose proper
      prefixes is itself a spelling there, reports Ok for every key but the
      last and commits `d` on the last. */
  lemma {:induction false} TypeChunk(t: Tables, s: string, i: nat, done: Spelling, d: Spelling, k: nat)
    requires i < |s| && k < |d|
    requires d in Candidates(t, s, i)
    requires forall j | 0 < j < |d| :: d[..j] !in Candidates(t, s, i)
    ensures var n := ConsumedCount(t, s, d, i);
            var r := Run(t, s, Cursor(i, d[..k], done), d[k..]);
            r.final == Cursor(i + n, "", done + d) &&
            OkThen(r.statuses, if i + n == |s| then Done else Ok)
    decreases |d| - k
  {
    var c := Cursor(i, d[..k], done);
    var temp := d[..k] + [d[k]];
    assert temp == d[..k + 1];
    assert temp <= d;
    if k + 1 == |d| {
      TypeLastKey(t, s, i, done, d, k);
    } else {
      StepPartialOrFull(t, s, c, d[k], d);
      assert temp !in Candidates(t, s, i);
      TypeChunk(t, s, i, done, d, k + 1);
      assert d[k..][1..] == d[k + 1..];
      FeedOkFirst(Matcher(t, s), c, d[k..], if i + ConsumedCount(t, s, d, i) == |s| then Done else Ok);
    }
  }

  /** The last key of a spelling commits it. */
  lemma TypeLastKey(t: Tables, s: string, i: nat, done: Spelling, d: Spelling, k: nat)
    requires i < |s| && k + 1 == |d|
    requires d in Candidates(t, s, i)
    ensures var n := ConsumedCount(t, s, d, i);
            var r := Run(t, s, Cursor(i, d[..k], done), d[k..]);
            r.final == Cursor(i + n, "", done + d) &&
            OkThen(r.statuses, if i + n == |s| then Done else Ok)
  {
    var c := Cursor(i, d[..k], done);
    assert d[..k] + [d[k]] == d;
    StepFullMatch(t, s, c, d[k]);
    assert d[k..] == [d[k]];
    RunSingle(t, s, c, d[k]);
  }

  /** Typing one key is one step of the matcher. */
  lemma RunSingle(t: Tables, s: string, c: Cursor, ch: char)
    ensures Run(t, s, c, [ch]) == RunResult([Step(t, s, c, ch).status], Step(t, s, c, ch).cursor)
  {
    FeedSingle(Matcher(t, s), c, ch);
  }

  lemma FeedSingle(step: (Cursor, char) -> StepResult, c: Cursor, x: char)
    ensures Feed(step, c, [x]) == RunResult([step(c, x).status], step(c, x).cursor)
  {
    assert Feed(step, step(c, x).cursor, []) == RunResult([], step(c, x).cursor);
  }

  /** A first key reported Ok in front of a run that is Ok up to `last`. */
  lemma FeedOkFirst(step: (Cursor, char) -> StepResult, c: Cursor, keys: seq<char>, last: Status)
    requires keys != [] && step(c, keys[0]).status == Ok
    requires OkThen(Feed(step, step(c, keys[0]).cursor, keys[1..]).statuses, last)
    ensures Feed(step, c, keys).final == Feed(step, step(c, keys[0]).cursor, keys[1..]).final
    ensures OkThen(Feed(step, c, keys).statuses, last)
  {
    var rest := Feed(step, step(c, keys[0]).cursor, keys[1..]).statuses;
    var all := Feed(step, c, keys).statuses;
    assert all == [Ok] + rest;
    forall j | 0 <= j < |all| - 1 ensures all[j] == Ok {
      if j > 0 { assert all[j] == rest[j - 1]; }
    }
  }

  lemma StepPartialOrFull(t: Tables, s: string, c: Cursor, ch: char, d: Spelling)
    requires c.index < |s| && d in Candidates(t, s, c.index) && c.buffer + [ch] <= d
    ensures c.buffer + [ch] !in Candidates(t, s, c.index) ==>
              Step(t, s, c, ch) == StepResult(Ok, Cursor(c.index, c.buffer + [ch], c.completed))
  {
    if c.buffer + [ch] !in Candidates(t, s, c.index) {
      StepPartialMatch(t, s, c, ch);
    }
  }

  /** The default spelling of the group starting at `i` and how many kana it
      covers: the pair's first spelling, the next kana's first letter for a
      small tsu, or the kana's first spelling (`?` for an unknown kana). */
  function DefaultChunk(t: Tables, s: string, i: nat): (chunk: (Spelling, nat))
    requires i < |s|
    ensures (chunk.1 == 1 || chunk.1 == 2) && i + chunk.1 <= |s|
  {
    if i + 1 < |s| && t.combo(s[i], s[i + 1]) != [] then (t.combo(s[i], s[i + 1])[0], 2)
    else if s[i] == SmallTsu && i + 1 < |s| then ([FirstLetter(t, s[i + 1])], 1)
    else (if t.kana(s[i]) == [] then "?" else t.kana(s[i])[0], 1)
  }

  /** The first letter of a kana's default spelling (a space for an unknown
      kana; an empty spelling, which well-formed tables do not have, gives a
      space too). */
  function FirstLetter(t: Tables, kana: char): char
  {
    if t.kana(kana) == [] || t.kana(kana)[0] == "" then ' ' else t.kana(kana)[0][0]
  }

  /** The canonical spelling of the sentence from position `i` on. */
  function DefaultString(t: Tables, s: string, i: nat): Spelling
    decreases |s| - i
  {
    if i >= |s| then "" else DefaultChunk(t, s, i).0 + DefaultString(t, s, i + DefaultChunk(t, s, i).1)
  }

  /** Sentences whose canonical spelling can be typed: every kana is in the
      table and every small tsu that has a successor doubles a consonant. */
  ghost predicate Typeable(t: Tables, s: string)
  {
    TablesOk(t) && forall i | 0 <= i < |s| :: TypeableAt(t, s, i)
  }

  /** The kana at `i` is in the table, and a small tsu there doubles the
      consonant of the kana after it. */
  ghost predicate TypeableAt(t: Tables, s: string, i: nat)
    requires i < |s|
  {
    t.kana(s[i]) != [] && (s[i] == SmallTsu && i + 1 < |s| ==> IsDoublingConsonant(FirstLetter(t, s[i + 1])))
  }

  lemma {:induction false} DoublingLettersHas(rs: seq<Spelling>, r: Spelling)
    requires r in rs && |r| > 0 && IsDoublingConsonant(r[0])
    ensures r[0] in DoublingLetters(rs)
    decreases |rs|
  {
    var init := rs[..|rs| - 1];
    if r != rs[|rs| - 1] {
      assert r in init;
      DoublingLettersHas(init, r);
    }
  }

  lemma NoProperPrefixConcat(d: Spelling, a: seq<Spelling>, b: seq<Spelling>)
    requires NoProperPrefixAmong(d, a) && NoProperPrefixAmong(d, b)
    ensures NoProperPrefixAmong(d, a + b)
  {
    forall m | 0 <= m < |a + b| ensures !ShortProperPrefix((a + b)[m], d) {
      if m < |a| { assert (a + b)[m] == a[m]; } else { assert (a + b)[m] == b[m - |a|]; }
    }
  }

  /** On a typeable sentence the default chunk at `i` is a spelling accepted
      there, none of its proper prefixes is one, and it covers exactly the
      kana the matcher advances by when it completes. */
  lemma DefaultChunkIsCandidate(t: Tables, s: string, i: nat)
    requires Typeable(t, s) && i < |s|
    ensures var (d, n) := DefaultChunk(t, s, i);
            d in Candidates(t, s, i) && ConsumedCount(t, s, d, i) == n &&
            forall j | 0 < j < |d| :: d[..j] !in Candidates(t, s, i)
  {
    if i + 1 < |s| && t.combo(s[i], s[i + 1]) != [] {
      ComboChunkIsCandidate(t, s, i);
    } else if s[i] == SmallTsu && i + 1 < |s| {
      SokuonChunkIsCandidate(t, s, i);
    } else {
      KanaChunkIsCandidate(t, s, i);
    }
  }

  /** The case of a pair with a combo spelling. */
  lemma ComboChunkIsCandidate(t: Tables, s: string, i: nat)
    requires Typeable(t, s) && i + 1 < |s| && t.combo(s[i], s[i + 1]) != []
    ensures var (d, n) := DefaultChunk(t, s, i);
            d in Candidates(t, s, i) && ConsumedCount(t, s, d, i) == n &&
            forall j | 0 < j < |d| :: d[..j] !in Candidates(t, s, i)
  {
    var (d, n) := DefaultChunk(t, s, i);
    var cands := Candidates(t, s, i);
    assert TypeableAt(t, s, i);
    var combo := t.combo(s[i], s[i + 1]);
    assert SokuonPart(t, s, i) == [];
    assert cands == combo + t.kana(s[i]);
    NoProperPrefixConcat(d, combo, t.kana(s[i]));
    NoEarlyCompletion(d, cands);
  }

  /** The case of a small tsu before another kana. */
  lemma SokuonChunkIsCandidate(t: Tables, s: string, i: nat)
    requires Typeable(t, s) && i + 1 < |s| && t.combo(s[i], s[i + 1]) == [] && s[i] == SmallTsu
    ensures var (d, n) := DefaultChunk(t, s, i);
            d in Candidates(t, s, i) && ConsumedCount(t, s, d, i) == n &&
            forall j | 0 < j < |d| :: d[..j] !in Candidates(t, s, i)
  {
    var (d, n) := DefaultChunk(t, s, i);
    assert TypeableAt(t, s, i);
    var next := t.kana(s[i + 1]);
    assert TypeableAt(t, s, i + 1);
    assert next != [] && next[0] in next;
    DoublingLettersHas(next, next[0]);
    var letters := DoublingLetters(next);
    var k :| 0 <= k < |letters| && letters[k] == FirstLetter(t, s[i + 1]);
    assert Singletons(letters)[k] == d;
    assert d in SokuonPart(t, s, i);
  }

  /** The case of a kana spelled on its own. */
  lemma KanaChunkIsCandidate(t: Tables, s: string, i: nat)
    requires Typeable(t, s) && i < |s|
    requires !(i + 1 < |s| && t.combo(s[i], s[i + 1]) != []) && !(s[i] == SmallTsu && i + 1 < |s|)
    ensures var (d, n) := DefaultChunk(t, s, i);
            d in Candidates(t, s, i) && ConsumedCount(t, s, d, i) == n &&
            forall j | 0 < j < |d| :: d[..j] !in Candidates(t, s, i)
  {
    var (d, n) := DefaultChunk(t, s, i);
    var cands := Candidates(t, s, i);
    assert TypeableAt(t, s, i);
    assert ComboPart(t, s, i) == [] && SokuonPart(t, s, i) == [];
    assert cands == t.kana(s[i]);
    NoEarlyCompletion(d, cands);
  }

  lemma NoEarlyCompletion(d: Spelling, cs: seq<Spelling>)
    requires |d| <= 3 && NoProperPrefixAmong(d, cs)
    ensures forall j | 0 < j < |d| :: d[..j] !in cs
  {
    forall j | 0 < j < |d| ensures d[..j] !in cs {
      if d[..j] in cs {
        var m :| 0 <= m < |cs| && cs[m] == d[..j];
        assert ShortProperPrefix(cs[m], d);
      }
    }
  }

  /** Feeding the default chunk at `i` to `step` commits exactly that
      chunk, moves to the next group and reports Ok up to a last status
      that is Done exactly when the sentence is finished. */
  ghost predicate TypesChunk(step: (Cursor, char) -> StepResult, t: Tables, s: string, i: nat, done: Spelling)
    requires i < |s|
  {
    var d := DefaultChunk(t, s, i).0;
    var n := DefaultChunk(t, s, i).1;
    var r := Feed(step, Cursor(i, "", done), d);
    r.final == Cursor(i + n, "", done + d) && OkThen(r.statuses, if i + n == |s| then Done else Ok)
  }

  /** The matcher types every default chunk of a typeable sentence as a unit. */
  lemma TypeDefaultChunk(t: Tables, s: string, i: nat, done: Spelling)
    requires Typeable(t, s) && i < |s|
    ensures TypesChunk(Matcher(t, s), t, s, i, done)
  {
    var d := DefaultChunk(t, s, i).0;
    DefaultChunkIsCandidate(t, s, i);
    TypeChunk(t, s, i, done, d, 0);
    assert d[..0] == "" && d[0..] == d;
  }

  /** A step function that types each default chunk as a unit types the
      whole default spelling from a group boundary: Ok up to a final Done,
      with the default spelling committed. */
  lemma {:induction false} FeedDefaultString(step: (Cursor, char) -> StepResult, t: Tables, s: string, i: nat, done: Spelling)
    requires i <= |s|
    requires forall j, dn | i <= j < |s| :: TypesChunk(step, t, s, j, dn)
    ensures var r := Feed(step, Cursor(i, "", done), DefaultString(t, s, i));
            r.final == Cursor(|s|, "", done + DefaultString(t, s, i)) &&
            (i < |s| ==> OkThen(r.statuses, Done)) && (i == |s| ==> r.statuses == [])
    decreases |s| - i
  {
    if i < |s| {
      var d := DefaultChunk(t, s, i).0;
      var n := DefaultChunk(t, s, i).1;
      var rest := DefaultString(t, s, i + n);
      assert TypesChunk(step, t, s, i, done);
      FeedDefaultString(step, t, s, i + n, done + d);
      DefaultStringUnfold(t, s, i);
      FeedJoin(step, Cursor(i, "", done), d, rest, if i + n == |s| then Done else Ok);
      AppendAssoc(done, d, rest);
    } else {
      assert DefaultString(t, s, i) == "" && done + "" == done;
    }
  }

  /** Feeding `a` then `b`, where `a` ends Ok and `b` ends Done (or `a`
      ends Done and `b` is empty), is Ok up to a final Done. */
  lemma FeedJoin(step: (Cursor, char) -> StepResult, c: Cursor, a: seq<char>, b: seq<char>, last: Status)
    requires OkThen(Feed(step, c, a).statuses, last)
    requires last == Ok ==> OkThen(Feed(step, Feed(step, c, a).final, b).statuses, Done)
    requires last == Done ==> b == []
    requires last != Error
    ensures Feed(step, c, a + b).final == Feed(step, Feed(step, c, a).final, b).final
    ensures OkThen(Feed(step, c, a + b).statuses, Done)
  {
    FeedConcat(step, c, a, b);
    var first := Feed(step, c, a);
    var second := Feed(step, first.final, b);
    if last == Ok {
      OkThenConcat(first.statuses, second.statuses, Done);
    } else {
      assert first.statuses + second.statuses == first.statuses;
    }
  }

  lemma OkThenConcat(a: seq<Status>, b: seq<Status>, last: Status)
    requires OkThen(a, Ok) && OkThen(b, last)
    ensures OkThen(a + b, last)
  {
    var all := a + b;
    assert all[|all| - 1] == b[|b| - 1];
    forall j | 0 <= j < |all| - 1 ensures all[j] == Ok {
      if j < |a| { assert all[j] == a[j]; } else { assert all[j] == b[j - |a|]; }
    }
  }

  /** Typing a typeable sentence's canonical spelling into a fresh matcher
      reports Ok for each key but the last, Done on the last, never Error,
      and leaves the canonical spelling as the committed text. */
  lemma RoundTrip(t: Tables, s: string)
    requires Typeable(t, s) && |s| > 0
    ensures var r := Run(t, s, Start, DefaultString(t, s, 0));
            OkThen(r.statuses, Done) && Error !in r.statuses &&
            r.final == Cursor(|s|, "", DefaultString(t, s, 0))
  {
    AllChunksType(t, s);
    FeedDefaultString(Matcher(t, s), t, s, 0, "");
    assert "" + DefaultString(t, s, 0) == DefaultString(t, s, 0);
    OkThenNoError(Run(t, s, Start, DefaultString(t, s, 0)).statuses, Done);
  }

  /** Every position's default chunk types through the matcher. */
  lemma AllChunksType(t: Tables, s: string)
    requires Typeable(t, s)
    ensures forall j, dn | 0 <= j < |s| :: TypesChunk(Matcher(t, s), t, s, j, dn)
  {
    forall j, dn | 0 <= j < |s| ensures TypesChunk(Matcher(t, s), t, s, j, dn) {
      TypeDefaultChunk(t, s, j, dn);
    }
  }

  /** Statuses that are Ok up to a last one that is not an error hold no error. */
  lemma OkThenNoError(sts: seq<Status>, last: Status)
    requires OkThen(sts, last) && last != Error
    ensures Error !in sts
  {
  }

  /** The index of the first spelling that starts with `p`. */
  function FirstWithPrefix(cs: seq<Spelling>, p: Spelling): (k: Option<nat>)
    ensures k.Some? ==> k.value < |cs| && p <= cs[k.value] && forall j | 0 <= j < k.value :: !(p <= cs[j])
    ensures k.None? ==> forall j | 0 <= j < |cs| :: !(p <= cs[j])
  {
    if cs == [] then None
    else if p <= cs[0] then Some(0)
    else match FirstWithPrefix(cs[1..], p)
         case Some(j) => Some(j + 1)
         case None => None
  }

  /** What the sentence display shows: committed text, typed buffer, the
      rest of the predicted spelling, the default spelling of what follows,
      and the key to highlight. */
  datatype DisplayState = DisplayState(completed: Spelling, buffer: Spelling, prediction: Spelling,
                                       future: Spelling, nextChar: Option<char>)

  /** The characters of `r` from position `n` on, or none when `n` is past its end. */
  function Suffix(r: Spelling, n: nat): (t: Spelling)
    ensures n <= |r| ==> r == r[..n] + t
    ensures n >= |r| ==> t == ""
  {
    if n <= |r| then r[n..] else ""
  }

  /** The spelling the display predicts among `cs` for buffer `p`: the
      first that starts with `p`, else the first of all. */
  function Predicted(cs: seq<Spelling>, p: Spelling): (m: Option<Spelling>)
    ensures m.None? <==> cs == []
  {
    var first := FirstWithPrefix(cs, p);
    if first.Some? then Some(cs[first.value]) else if cs != [] then Some(cs[0]) else None
  }

  /** When the buffer is empty or a proper prefix of some spelling, the
      prediction is the first spelling `cs[k]` that the buffer starts, and it
      is longer than the buffer when the buffer is not itself a spelling. */
  lemma PredictedExtends(cs: seq<Spelling>, p: Spelling)
    requires cs != []
    requires p != [] ==> exists r :: r in cs && p < r
    ensures exists k :: 0 <= k < |cs| && cs[k] == Predicted(cs, p).value && p <= cs[k] &&
                        forall j | 0 <= j < k :: !(p <= cs[j])
  {
    var first := FirstWithPrefix(cs, p);
    if p != [] {
      var r :| r in cs && p < r;
      var k :| 0 <= k < |cs| && cs[k] == r;
      assert first.Some?;
    } else {
      assert p <= cs[0];
    }
  }

  /** The display for cursor `c`: the prediction is the rest of the
      predicted spelling, and the future is the default spelling after the
      group that spelling covers. */
  function Display(t: Tables, s: string, c: Cursor): DisplayState
  {
    var prediction := if c.index < |s| then PredictionAt(t, s, c) else "";
    var future := if c.index < |s| then FutureAt(t, s, c) else "";
    DisplayState(c.completed, c.buffer, prediction, future,
                 if |prediction| > 0 then Some(prediction[0]) else if |future| > 0 then Some(future[0]) else None)
  }

  function PredictionAt(t: Tables, s: string, c: Cursor): Spelling
    requires c.index < |s|
  {
    var found := Predicted(Candidates(t, s, c.index), c.buffer);
    if found.Some? then Suffix(found.value, |c.buffer|) else ""
  }

  function FutureAt(t: Tables, s: string, c: Cursor): Spelling
    requires c.index < |s|
  {
    var found := Predicted(Candidates(t, s, c.index), c.buffer);
    DefaultString(t, s, c.index + ConsumedCount(t, s, if found.Some? then found.value else "A", c.index))
  }

  /** The display's parts: history and buffer as they are; nothing predicted
      once the sentence is finished; for an unknown kana only the default
      spelling of what follows; otherwise the prediction completes the
      buffer to the first spelling `cands[k]` extending it, and the future
      starts after the kana `cands[k]` covers. */
  lemma DisplayParts(t: Tables, s: string, c: Cursor)
    requires Inv(t, s, c)
    ensures var ds := Display(t, s, c);
            ds.completed == c.completed && ds.buffer == c.buffer &&
            (c.index >= |s| ==> ds.prediction == "" && ds.future == "" && ds.nextChar == None)
    ensures var ds := Display(t, s, c);
            var cands := Candidates(t, s, c.index);
            c.index < |s| && cands == [] ==>
              ds.prediction == "" && ds.future == DefaultString(t, s, c.index + 1)
    ensures var ds := Display(t, s, c);
            var cands := Candidates(t, s, c.index);
            c.index < |s| && cands != [] ==>
              exists k :: 0 <= k < |cands| && cands[k] == c.buffer + ds.prediction &&
                          (forall j | 0 <= j < k :: !(c.buffer <= cands[j])) &&
                          ds.future == DefaultString(t, s, c.index + ConsumedCount(t, s, cands[k], c.index))
  {
    if c.index < |s| && Candidates(t, s, c.index) != [] {
      DisplayFound(t, s, c);
    }
  }

  /** The third part of `DisplayParts`: the prediction completes the
      buffer to the first spelling extending it. */
  lemma DisplayFound(t: Tables, s: string, c: Cursor)
    requires Inv(t, s, c) && c.index < |s| && Candidates(t, s, c.index) != []
    ensures var cands := Candidates(t, s, c.index);
            exists k :: 0 <= k < |cands| && cands[k] == c.buffer + PredictionAt(t, s, c) &&
                        (forall j | 0 <= j < k :: !(c.buffer <= cands[j])) &&
                        FutureAt(t, s, c) == DefaultString(t, s, c.index + ConsumedCount(t, s, cands[k], c.index))
  {
    var cands := Candidates(t, s, c.index);
    var m := Predicted(cands, c.buffer).value;
    var k := PredictionSplits(cands, c.buffer, m);
    FutureOf(t, s, c, m);
    PredictionOf(t, s, c, m);
  }

  /** The prediction is the first spelling extending the buffer, one the
      buffer is a prefix of. */
  lemma PredictionSplits(cands: seq<Spelling>, p: Spelling, m: Spelling) returns (k: nat)
    requires Predicted(cands, p) == Some(m)
    requires p != [] ==> exists r :: r in cands && p < r
    ensures k < |cands| && cands[k] == m && p <= m && forall j | 0 <= j < k :: !(p <= cands[j])
  {
    PredictedExtends(cands, p);
    k :| 0 <= k < |cands| && cands[k] == Predicted(cands, p).value && p <= cands[k] &&
         forall j | 0 <= j < k :: !(p <= cands[j]);
  }

  /** The prediction after the predicted spelling `m` is what `m` adds to the buffer. */
  lemma PredictionOf(t: Tables, s: string, c: Cursor, m: Spelling)
    requires c.index < |s| && Predicted(Candidates(t, s, c.index), c.buffer) == Some(m) && c.buffer <= m
    ensures m == c.buffer + PredictionAt(t, s, c)
  {
  }

  /** The future after the predicted spelling `m`. */
  lemma FutureOf(t: Tables, s: string, c: Cursor, m: Spelling)
    requires c.index < |s| && Predicted(Candidates(t, s, c.index), c.buffer) == Some(m)
    ensures FutureAt(t, s, c) == DefaultString(t, s, c.index + ConsumedCount(t, s, m, c.index))
  {
  }

  /** The highlighted key is always accepted: whenever the kana at the
      cursor has a spelling, the display names a key and typing it is not
      rejected. */
  lemma NextKeyAccepted(t: Tables, s: string, c: Cursor)
    requires TablesOk(t) && Inv(t, s, c)
    requires c.index < |s| && Candidates(t, s, c.index) != []
    ensures Display(t, s, c).nextChar.Some?
    ensures Step(t, s, c, Display(t, s, c).nextChar.value).status != Error
  {
    var cands := Candidates(t, s, c.index);
    var m := Predicted(cands, c.buffer).value;
    var k := PredictionSplits(cands, c.buffer, m);
    CandidatesNonEmpty(t, s, c.index, k);
    BufferShorter(cands, c.buffer, m);
    NextCharOf(t, s, c, m);
    ExtendingKeyAccepted(t, s, c, m[|c.buffer|], m);
  }

  /** A buffer that is not itself a spelling is shorter than a non-empty
      spelling it starts, and one more letter of that spelling still starts it. */
  lemma BufferShorter(cands: seq<Spelling>, p: Spelling, m: Spelling)
    requires m in cands && m != [] && p <= m
    requires p != [] ==> p !in cands
    ensures |p| < |m| && p + [m[|p|]] <= m
  {
    assert p != m;
    assert p + [m[|p|]] == m[..|p| + 1];
  }

  /** The highlighted key is the one after the buffer in the predicted
      spelling `m`, when `m` is longer than the buffer. */
  lemma NextCharOf(t: Tables, s: string, c: Cursor, m: Spelling)
    requires c.index < |s| && Predicted(Candidates(t, s, c.index), c.buffer) == Some(m)
    requires c.buffer <= m && c.buffer != m
    ensures Display(t, s, c).nextChar == Some(m[|c.buffer|])
  {
    assert PredictionAt(t, s, c) == m[|c.buffer|..];
  }

  lemma ExtendingKeyAccepted(t: Tables, s: string, c: Cursor, ch: char, r: Spelling)
    requires c.index < |s| && r in Candidates(t, s, c.index) && c.buffer + [ch] <= r
    ensures Step(t, s, c, ch).status != Error
  {
    StepRejectLeavesCursor(t, s, c, ch);
  }

  /** Well-formed tables give no empty spelling. */
  lemma CandidatesNonEmpty(t: Tables, s: string, i: nat, k: nat)
    requires TablesOk(t) && i < |s| && k < |Candidates(t, s, i)|
    ensures Candidates(t, s, i)[k] != []
  {
    var combo := ComboPart(t, s, i);
    var sokuon := SokuonPart(t, s, i);
    if k < |combo| {
      assert Candidates(t, s, i)[k] == combo[k];
    } else if k < |combo| + |sokuon| {
      assert Candidates(t, s, i)[k] == sokuon[k - |combo|];
    } else {
      assert Candidates(t, s, i)[k] == t.kana(s[i])[k - |combo| - |sokuon|];
    }
  }

  /** The matcher for one sentence. Its mutable fields are the source's
      cursor; the tables it consults are fixed when it is built. */
  class RomajiProcessor {
    const tables: Tables
    const displayString: string
    var currentIndex: nat
    var inputBuffer: Spelling
    var completedRomaji: Spelling

    function State(): Cursor
      reads this
    {
      Cursor(currentIndex, inputBuffer, completedRomaji)
    }

    ghost predicate Valid()
      reads this
    {
      TablesOk(tables) && Inv(tables, displayString, State())
    }

    constructor (tables: Tables, displayString: string)
      requires TablesOk(tables)
      ensures this.tables == tables && this.displayString == displayString && State() == Start && Valid()
    {
      this.tables := tables;
      this.displayString := displayString;
      currentIndex := 0;
      inputBuffer := "";
      completedRomaji := "";
    }

    /** One key: rejects and keys after completion change nothing; a partial
        match is buffered; a full match commits. */
    method Input(ch: char) returns (status: Status)
      requires Valid()
      modifies this
      ensures Valid()
      ensures StepResult(status, State()) == Step(tables, displayString, old(State()), ch)
    {
      StepKeepsInv(tables, displayString, State(), ch);
      if currentIndex >= |displayString| {
        return Done;
      }
      var tempBuffer := inputBuffer + [ch];
      var possibleRomajis := GetPossibleRomajis(currentIndex);
      var matches := WithPrefix(possibleRomajis, tempBuffer);
      if matches != [] {
        if tempBuffer in matches {
          var consumed := ConsumedCount(tables, displayString, tempBuffer, currentIndex);
          completedRomaji := completedRomaji + tempBuffer;
          inputBuffer := "";
          currentIndex := currentIndex + consumed;
          if currentIndex >= |displayString| {
            return Done;
          }
        } else {
          inputBuffer := tempBuffer;
        }
        return Ok;
      } else {
        return Error;
      }
    }

    /** The spellings accepted at `index`, pushed in the source's order. */
    method GetPossibleRomajis(index: nat) returns (options: seq<Spelling>)
      ensures options == Candidates(tables, displayString, index)
    {
      options := [];
      if index >= |displayString| {
        return;
      }
      var kana := displayString[index];
      if index + 1 < |displayString| {
        var combo := tables.combo(kana, displayString[index + 1]);
        if combo != [] {
          options := options + combo;
        }
      }
      ghost var combos := options;
      assert combos == ComboPart(tables, displayString, index);
      if kana == SmallTsu && index + 1 < |displayString| {
        var nextOptions := tables.kana(displayString[index + 1]);
        var consonants: seq<char> := [];
        for j := 0 to |nextOptions|
          invariant consonants == DoublingLetters(nextOptions[..j])
        {
          DoublingLettersPrefix(nextOptions, j);
          var r := nextOptions[j];
          if |r| > 0 && IsDoublingConsonant(r[0]) && r[0] !in consonants {
            consonants := consonants + [r[0]];
          }
        }
        assert nextOptions[..|nextOptions|] == nextOptions;
        for j := 0 to |consonants|
          invariant options == combos + Singletons(consonants[..j])
        {
          SingletonsPrefix(consonants, j);
          options := options + [[consonants[j]]];
        }
        assert consonants[..|consonants|] == consonants;
        assert options == combos + SokuonPart(tables, displayString, index);
      } else {
        assert options == combos + SokuonPart(tables, displayString, index);
      }
      options := options + tables.kana(kana);
    }

    /** The canonical spelling of the sentence from `startIndex` on. */
    static method GenerateDefaultString(t: Tables, s: string, startIndex: nat) returns (str: Spelling)
      ensures str == DefaultString(t, s, startIndex)
    {
      str := "";
      var i := startIndex;
      while i < |s|
        invariant str + DefaultString(t, s, i) == DefaultString(t, s, startIndex)
        decreases |s| - i
      {
        var piece, n := DefaultChunkAt(t, s, i);
        DefaultStringStep(t, s, i, str, piece, n);
        str := str + piece;
        i := i + n;
      }
      assert DefaultString(t, s, i) == "" && str + "" == str;
    }

    /** One pass of the default-spelling loop: the pair's first spelling,
        the first letter of the next kana's first spelling after a small
        tsu, or the kana's first spelling (`?` for an unknown kana). */
    static method DefaultChunkAt(t: Tables, s: string, i: nat) returns (piece: Spelling, n: nat)
      requires i < |s|
      ensures (piece, n) == DefaultChunk(t, s, i)
    {
      var kana := s[i];
      if i + 1 < |s| && t.combo(kana, s[i + 1]) != [] {
        piece, n := t.combo(kana, s[i + 1])[0], 2;
      } else if kana == SmallTsu && i + 1 < |s| {
        var nextR := (if t.kana(s[i + 1]) != [] then t.kana(s[i + 1]) else [" "])[0];
        piece, n := [if nextR == "" then ' ' else nextR[0]], 1;
      } else {
        piece, n := (if t.kana(kana) != [] then t.kana(kana) else ["?"])[0], 1;
      }
    }

    /** The display for the current cursor. */
    method GetDisplayState() returns (ds: DisplayState)
      ensures ds == Display(tables, displayString, State())
    {
      var t, s, c := tables, displayString, State();
      var prediction: Spelling := "";
      var future: Spelling := "";
      if c.index < |s| {
        var options := GetPossibleRomajis(c.index);
        var found := Predicted(options, c.buffer);
        if found.Some? {
          prediction := Suffix(found.value, |c.buffer|);
        }
        var matched := if found.Some? then found.value else "A";
        var consumed := ConsumedCount(t, s, matched, c.index);
        future := GenerateDefaultString(t, s, c.index + consumed);
        assert prediction == PredictionAt(t, s, c);
        assert future == FutureAt(t, s, c) by {
          assert found == Predicted(Candidates(t, s, c.index), c.buffer);
        }
      }
      var nextChar := if |prediction| > 0 then Some(prediction[0])
                      else if |future| > 0 then Some(future[0]) else None;
      ds := DisplayState(completedRomaji, inputBuffer, prediction, future, nextChar);
    }
  }

  lemma AppendAssoc<T>(a: seq<T>, b: seq<T>, c: seq<T>)
    ensures a + b + c == a + (b + c)
  {
  }

  lemma DefaultStringStep(t: Tables, s: string, i: nat, str: Spelling, piece: Spelling, n: nat)
    requires i < |s| && (piece, n) == DefaultChunk(t, s, i)
    ensures str + piece + DefaultString(t, s, i + n) == str + DefaultString(t, s, i)
  {
    DefaultStringUnfold(t, s, i);
    AppendAssoc(str, DefaultChunk(t, s, i).0, DefaultString(t, s, i + DefaultChunk(t, s, i).1));
  }

  lemma DefaultStringUnfold(t: Tables, s: string, i: nat)
    requires i < |s|
    ensures DefaultString(t, s, i) == DefaultChunk(t, s, i).0 + DefaultString(t, s, i + DefaultChunk(t, s, i).1)
  {
  }

  lemma DoublingLettersPrefix(rs: seq<Spelling>, j: nat)
    requires j < |rs|
    ensures DoublingLetters(rs[..j + 1]) ==
            var c := DoublingLetters(rs[..j]);
            if |rs[j]| > 0 && IsDoublingConsonant(rs[j][0]) && rs[j][0] !in c then c + [rs[j][0]] else c
  {
    assert rs[..j + 1][..j] == rs[..j];
  }

  lemma SingletonsPrefix(cs: seq<char>, j: nat)
    requires j < |cs|
    ensures Singletons(cs[..j + 1]) == Singletons(cs[..j]) + [[cs[j]]]
  {
    assert cs[..j + 1] == cs[..j] + [cs[j]];
    SingletonsSnoc(cs[..j], cs[j]);
  }

  lemma SingletonsSnoc(cs: seq<char>, c: char)
    ensures Singletons(cs + [c]) == Singletons(cs) + [[c]]
  {
  }
}
