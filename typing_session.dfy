/** The typing game's round logic around the matcher: which keys reach the
    matcher, how mistakes are counted and how a finished sentence is
    scored. */
module TypingSession {
  import opened Wrappers
  import opened Romaji

  /** The upper case of a character when it is a single character (the
      source's `toUpperCase()`): ASCII letters, and the two non-ASCII
      letters whose upper case is an ASCII letter, the dotless i and the
      long s. Other characters are returned as they are; none of them
      upper-cases to a letter or a hyphen. */
  function UpperCase(c: char): char
  {
    if 'a' <= c <= 'z' then (c as int - 'a' as int + 'A' as int) as char
    else if c == 'ı' then 'I'
    else if c == 'ſ' then 'S'
    else c
  }

  predicate IsGameKey(c: char) { 'A' <= c <= 'Z' || c == '-' }

  /** The key forwarded to the matcher for a key name, if any: exactly
      one character whose upper case is a letter or a hyphen. */
  function KeyFilter(key: string): (k: Option<char>)
    ensures k.Some? <==> |key| == 1 && IsGameKey(UpperCase(key[0]))
    ensures k.Some? ==> IsGameKey(k.value) && k.value == UpperCase(key[0])
  {
    if |key| == 1 && IsGameKey(UpperCase(key[0])) then Some(UpperCase(key[0])) else None
  }

  /** Letters of either case, the hyphen and the two special lower-case
      letters pass the filter; names of other keys do not. */
  lemma KeyFilterAccepts(key: string)
    ensures KeyFilter(key).Some? <==>
              |key| == 1 && ('A' <= key[0] <= 'Z' || 'a' <= key[0] <= 'z' || key[0] == '-' ||
                             key[0] == 'ı' || key[0] == 'ſ')
  {
  }

  /** The time penalty: two points per whole half second, that is the floor
      of twice the elapsed seconds. */
  function TimePenalty(elapsedMs: int): (p: int)
    ensures 500 * p <= elapsedMs < 500 * (p + 1)
  {
    elapsedMs / 500
  }

  /** The round score: 100 less the time penalty and 10 per mistake, and
      never below zero. */
  function RoundScore(elapsedMs: int, mistakes: nat): (score: int)
    ensures score >= 0
    ensures score == 0 || score == 100 - TimePenalty(elapsedMs) - 10 * mistakes
    ensures score >= 100 - TimePenalty(elapsedMs) - 10 * mistakes
  {
    var q := 100 - TimePenalty(elapsedMs) - 10 * mistakes;
    if q < 0 then 0 else q
  }

  /** A round on a clock that does not run backwards scores at most 100,
      and exactly 100 when it took under half a second with no mistakes. */
  lemma RoundScoreBounds(elapsedMs: int, mistakes: nat)
    requires elapsedMs >= 0
    ensures RoundScore(elapsedMs, mistakes) <= 100
    ensures RoundScore(elapsedMs, mistakes) == 100 <==> elapsedMs < 500 && mistakes == 0
  {
  }

  /** More time or more mistakes never raise the score. */
  lemma RoundScoreMonotone(t1: int, t2: int, m1: nat, m2: nat)
    requires t1 <= t2 && m1 <= m2
    ensures RoundScore(t2, m2) <= RoundScore(t1, m1)
  {
  }

  /** One finished sentence in the session history. */
  datatype RoundRecord = RoundRecord(text: string, elapsedMs: int, mistakes: nat, score: int)

  function TotalOf(history: seq<RoundRecord>): int
  {
    if history == [] then 0 else TotalOf(history[..|history| - 1]) + history[|history| - 1].score
  }

  lemma TotalOfAppend(history: seq<RoundRecord>, r: RoundRecord)
    ensures TotalOf(history + [r]) == TotalOf(history) + r.score
  {
    assert (history + [r])[..|history|] == history;
  }

  /** The session: the chosen sentences, where play is, the matcher for
      the current sentence, the round's mistakes and start time, and the
      running total with its per-round history. */
  class Session {
    const tables: Tables
    var questions: seq<string>
    var currentQuestionIndex: nat
    var processor: RomajiProcessor
    var isGameActive: bool
    var mistakes: nat
    var startTime: int
    var totalScore: int
    var sessionHistory: seq<RoundRecord>

    /** The running total is the sum of the recorded round scores and is
        never negative. */
    ghost predicate Valid()
      reads this
    {
      totalScore == TotalOf(sessionHistory) && totalScore >= 0
    }

    /** The matcher works with the game's tables and keeps its invariant. */
    ghost predicate Ready()
      reads this, processor
    {
      processor.tables == tables && processor.Valid()
    }

    /** The page before the first start: no sentence, no game running. The
        source has no matcher yet; here it is one over the empty sentence,
        which nothing consults while the game is inactive. */
    constructor (tables: Tables)
      requires TablesOk(tables)
      ensures Valid() && Ready() && this.tables == tables && !isGameActive
      ensures totalScore == 0 && sessionHistory == [] && questions == []
    {
      this.tables := tables;
      questions := [];
      currentQuestionIndex := 0;
      processor := new RomajiProcessor(tables, "");
      isGameActive := false;
      mistakes := 0;
      startTime := 0;
      totalScore := 0;
      sessionHistory := [];
    }

    /** Starting (or retrying) a game with the sentences drawn for it:
        total, history and position reset, then the first sentence loads. */
    method StartGame(chosen: seq<string>, now: int)
      requires Valid() && Ready()
      modifies this
      ensures Valid() && Ready()
      ensures questions == chosen && currentQuestionIndex == 0
      ensures totalScore == 0 && sessionHistory == []
      ensures isGameActive <==> chosen != []
      ensures chosen != [] ==>
                fresh(processor) && processor.displayString == chosen[0] &&
                processor.State() == Start && mistakes == 0 && startTime == now
      ensures chosen == [] ==>
                processor == old(processor) && mistakes == old(mistakes) && startTime == old(startTime)
    {
      totalScore := 0;
      currentQuestionIndex := 0;
      sessionHistory := [];
      questions := chosen;
      isGameActive := true;
      LoadQuestion(now);
    }

    /** Loading the sentence at the current position: past the last one the
        game ends; otherwise a fresh matcher, no mistakes, and the clock
        starts. */
    method LoadQuestion(now: int)
      requires Valid() && Ready()
      modifies this
      ensures Valid() && Ready()
      ensures questions == old(questions) && currentQuestionIndex == old(currentQuestionIndex)
      ensures totalScore == old(totalScore) && sessionHistory == old(sessionHistory)
      ensures currentQuestionIndex >= |questions| ==>
                !isGameActive && processor == old(processor) && mistakes == old(mistakes) && startTime == old(startTime)
      ensures currentQuestionIndex < |questions| ==>
                isGameActive && fresh(processor) && processor.displayString == questions[currentQuestionIndex] &&
                processor.State() == Start && mistakes == 0 && startTime == now
    {
      if currentQuestionIndex >= |questions| {
        isGameActive := false;
        return;
      }
      isGameActive := true;
      processor := new RomajiProcessor(tables, questions[currentQuestionIndex]);
      mistakes := 0;
      startTime := now;
    }

    /** One key press while a sentence is being typed. Keys are ignored
        when no game is running or when they do not pass the filter;
        otherwise the upper-cased key goes to the matcher, a rejection
        counts one mistake, and finishing the sentence scores the round. */
    method HandleInput(key: string, now: int)
      requires Valid() && Ready()
      modifies this, processor
      ensures Valid() && Ready()
      ensures processor == old(processor) && questions == old(questions)
      ensures currentQuestionIndex == old(currentQuestionIndex) && startTime == old(startTime)
      ensures !old(isGameActive) || KeyFilter(key).None? ==>
                unchanged(this) && processor.State() == old(processor.State())
      ensures old(isGameActive) && KeyFilter(key).Some? ==>
                var r := Step(tables, processor.displayString, old(processor.State()), KeyFilter(key).value);
                processor.State() == r.cursor &&
                (r.status == Error ==>
                   mistakes == old(mistakes) + 1 && isGameActive &&
                   totalScore == old(totalScore) && sessionHistory == old(sessionHistory)) &&
                (r.status == Ok ==>
                   mistakes == old(mistakes) && isGameActive &&
                   totalScore == old(totalScore) && sessionHistory == old(sessionHistory)) &&
                (r.status == Done ==>
                   mistakes == old(mistakes) && !isGameActive &&
                   totalScore == old(totalScore) + RoundScore(now - old(startTime), old(mistakes)) &&
                   sessionHistory == old(sessionHistory) +
                     [RoundRecord(processor.displayString, now - old(startTime), old(mistakes),
                                  RoundScore(now - old(startTime), old(mistakes)))])
    {
      if !isGameActive {
        return;
      }
      var filtered := KeyFilter(key);
      if filtered.None? {
        return;
      }
      var status := processor.Input(filtered.value);
      if status == Ok || status == Done {
        if status == Done {
          CompleteQuestion(now);
        }
      } else {
        mistakes := mistakes + 1;
      }
    }

    /** Finishing a sentence: input stops, the round score is added to the
        total and the round is recorded. */
    method CompleteQuestion(now: int)
      requires Valid()
      modifies this
      ensures Valid()
      ensures !isGameActive
      ensures processor == old(processor) && questions == old(questions)
      ensures currentQuestionIndex == old(currentQuestionIndex)
      ensures mistakes == old(mistakes) && startTime == old(startTime)
      ensures totalScore == old(totalScore) + RoundScore(now - startTime, mistakes)
      ensures sessionHistory == old(sessionHistory) +
                [RoundRecord(processor.displayString, now - startTime, mistakes, RoundScore(now - startTime, mistakes))]
    {
      var elapsedMs := now - startTime;
      var qScore := RoundScore(elapsedMs, mistakes);
      var record := RoundRecord(processor.displayString, elapsedMs, mistakes, qScore);
      var history := sessionHistory;
      TotalOfAppend(history, record);
      isGameActive := false;
      totalScore := totalScore + qScore;
      sessionHistory := history + [record];
    }

    /** The pause after a finished sentence: on to the next one. */
    method NextQuestion(now: int)
      requires Valid() && Ready()
      modifies this
      ensures Valid() && Ready()
      ensures currentQuestionIndex == old(currentQuestionIndex) + 1
      ensures totalScore == old(totalScore) && sessionHistory == old(sessionHistory)
      ensures questions == old(questions)
      ensures isGameActive <==> currentQuestionIndex < |questions|
      ensures currentQuestionIndex < |questions| ==>
                fresh(processor) && processor.displayString == questions[currentQuestionIndex] &&
                processor.State() == Start && mistakes == 0 && startTime == now
      ensures currentQuestionIndex >= |questions| ==>
                processor == old(processor) && mistakes == old(mistakes) && startTime == old(startTime)
    {
      currentQuestionIndex := currentQuestionIndex + 1;
      LoadQuestion(now);
    }
  }
}
