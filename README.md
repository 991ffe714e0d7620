# somagames rules, modelled in Dafny

A model of the rule-bearing core of a collection of small browser and
script games, with the properties their code promises proved about it.

- **Typing game** (`typing_tables.dfy`, `typing_romaji.dfy`,
  `typing_session.dfy`). The kana-to-romaji tables. The `RomajiProcessor`
  incremental matcher, as a class whose `Input` method advances a cursor
  (index, buffer, completed romaji) through a kana sentence. Its
  candidate list, consumed-kana count, canonical spelling and display
  state. The session's key filter, mistake count and round score. The
  central property is the round trip: typing the canonical spelling of a
  sentence written in the tables' kana, key by key from a fresh cursor,
  never meets an error and ends `DONE`.
- **Arithmetic quiz** (`math_quiz.dfy`). Generating the question set with
  its operand and answer bounds. `parseInt` on the answer text. The
  submit / next-question counter state machine.
- **Hang-glider** (`glider_entities.dfy`, `glider_game.dfy`). The glider,
  obstacle and sweet classes with their moves and hit boxes. The game's
  frame step covers:
  - the spawn timers;
  - the deletion of off-screen entities;
  - collisions, which cost lives or give points at most once per entity;
  - the goal time and the restart.
- **Helicopter** (`helicopter.dfy`). Guarded steering and the background
  scroll. The tree phase, where a crash ends the frame. The rock-row
  phase: each rock is charged at most once and each gap pays at most
  once. Removal of off-screen entities with order kept. The gate
  geometry and the countdown.
- **Parachute** (`parachute.dfy`). The frame clock. The clamped
  steering. The spawn every 60 frames. The object pass: collisions score
  ±100, a negative score loses at once, and objects that leave the top
  are removed.
- **Dog platformer** (`dog_level.dfy`, `dog_scene.dfy`,
  `dog_transparency.dfy`). The level generator's random walk. The
  scene's score, clock, enemy-contact rule and end states. The run-time
  transparency pass over the tile texture: a background palette taken
  from the corners, then a breadth-first fill from the corners.
- **Hang-glider asset scripts** (`rgba_image.dfy`,
  `process_transparency.dfy`, `chroma_key.dfy`, `fix_player.dfy`,
  `fix_player_white.dfy`). The in-place pixel loops over an RGBA image:
  - the gray-neighbour pass;
  - the per-corner stack flood fill;
  - chroma keying with a list of key colours;
  - the green-screen filter;
  - the white-background filter.

Shared modules hold the helpers:
- `wrappers.dfy`: `Option`.
- `rand.dfy`: a `Math.random()` draw as a real in [0, 1), and the
  `Math.floor(r * n)` it feeds.
- `geometry.dfy`: axis-aligned boxes and the closed and strict overlap
  tests.
- `grid_paths.dfy`: reachability on the pixel grid.

Random draws, key states, elapsed times and clock readings are
parameters. Pixel images are `array2<Rgba>` (the Python scripts) or a
flat `array<byte>` of RGBA data (the canvas).

Where the games' own text and their code disagree, the model follows the
code. In the hang-glider's `update`, the collision pass runs after the
off-screen filter. Entities marked in a frame therefore stay listed until
the next frame's filter. `GliderGame.PlayingFrameAccounts` states exactly
which marked entities remain after a frame.

## Model

| member | source | states |
|---|---|---|
| TypingTables.StandardRomaji | typing_game/game.js:39-61 | `KANA_TABLE`: each kana's accepted spellings in the table's order, the first being the canonical one; a kana outside the table has none |
| TypingTables.ComboRomaji | typing_game/game.js:63-77 | `COMBO_TABLE`: the spellings of a kana followed by a small ゃ, ゅ or ょ; any other pair has none |
| TypingTables.StandardRomajiOk | typing_game/game.js:39-61 | every `KANA_TABLE` entry is a list of well-formed upper-case spellings whose first spelling no other spelling of the kana completes early |
| TypingTables.ComboRomajiOk | typing_game/game.js:63-77 | every `COMBO_TABLE` entry is well formed and not keyed by っ, and its first spelling is completed early neither by another spelling of the pair nor by a spelling of the pair's first kana |
| TypingTables.SourceTablesOk | typing_game/game.js:39-77 | the game's two tables together meet every assumption the matcher's lemmas make |
| TypingTables.PairSpellingsComeFirst | typing_game/game.js:120-158 | for しゃ the candidates are the combo spellings SYA, SHA followed by the single-kana spellings of し |
| TypingTables.SmallTsuDoublesTheNextConsonant | typing_game/game.js:134-155 | for っち the candidates are the doubled consonants C and T, then the spellings of っ itself |
| TypingTables.DoublesOfChi | typing_game/game.js:134-141 | the doubling letters offered before ち are exactly C and T, in table order |
| TypingTables.DoublingOfChi | typing_game/game.js:136-140 | the distinct doubling first letters of CHI, TI are C then T |
| TypingTables.SpellingsOfChi | typing_game/game.js:39-61 | ち is spelled CHI or TI |
| TypingTables.SpellingsOfSmallTsu | typing_game/game.js:39-61 | っ is spelled XTU, LTU, TSU or TU |
| TypingTables.DefaultSpellingOfSmallTsu | typing_game/game.js:222-243 | the canonical spelling of っち is CCHI |
| TypingTables.SingleNCommitsAtOnce | typing_game/game.js:100-113 | after HO, a single N commits ん at once and ends ほん with DONE, although NN also starts with N |
| TypingTables.DefaultSpellingOfGakkou | typing_game/game.js:222-243 | the canonical spelling of がっこう is GAKKOU |
| TypingTables.GakkouChunks | typing_game/game.js:224-241 | がっこう splits into the canonical chunks GA, K (for っ), KO, U, each consuming one kana |
| Romaji.Candidates | typing_game/game.js:120-158 | the spellings accepted at index i: the pair's combo spellings, then for っ the doubled first consonants of the next kana, then the kana's own spellings; none past the end |
| Romaji.Step | typing_game/game.js:88-118 | one key of `input`: DONE past the end; ERROR when no candidate starts with buffer+key; a completed candidate commits and advances by the consumed count; otherwise the buffer grows |
| Romaji.DefaultString | typing_game/game.js:222-243 | the canonical spelling from index i: each position's canonical chunk, then the rest after the kana it consumes |
| Romaji.Display | typing_game/game.js:189-220 | the display state at a cursor: the completed text, the buffer, the predicted rest of the first matching candidate and the canonical spelling after it |
| Romaji.Singletons | typing_game/game.js:136-140 | the doubled consonants become one-letter candidates, one per letter, in order |
| Romaji.DoublingLettersHas | typing_game/game.js:136-140 | every doubling consonant that starts a spelling of the next kana is offered |
| Romaji.WithPrefixMembers | typing_game/game.js:94-95 | the prefix filter keeps exactly the candidates that start with the typed text |
| Romaji.ConsumedCount | typing_game/game.js:164-186 | the count is 1 or 2; it is 2 exactly when a next kana exists and the combo entry for the pair holds the chunk; it never runs past the sentence |
| Romaji.StepRejectLeavesCursor | typing_game/game.js:88-118 | past the end every key gives DONE with the cursor unchanged; a key is an ERROR exactly when no candidate starts with buffer+key, and an ERROR leaves the cursor unchanged |
| Romaji.StepPartialMatch | typing_game/game.js:95-100 | a key that extends a candidate without completing one is OK, grows the buffer by the key and keeps index and completed text |
| Romaji.StepFullMatch | typing_game/game.js:100-113 | a key that completes a candidate commits at once: completed text grows by the chunk, buffer empties, index advances by the consumed count, within the sentence, DONE exactly at its end and OK otherwise |
| Romaji.StepKeepsInv | typing_game/game.js:88-118 | a step keeps the index within the sentence and a non-empty buffer a strict prefix of a candidate that is not itself a candidate |
| Romaji.StepProgress | typing_game/game.js:106-108 | a step advances the index by 0, 1 or 2, never past the end, and the completed text only grows |
| Romaji.StepPartialOrFull | typing_game/game.js:94-113 | a key that extends some candidate either completes one or is an accepted partial match |
| Romaji.Feed | typing_game/game.js:88-118 | typing a key sequence yields one status per key |
| Romaji.FeedConcat | typing_game/game.js:88-118 | typing a+b is typing a then b from where a left off |
| Romaji.RunConcat | typing_game/game.js:88-118 | the same composition for the processor's own step on a sentence |
| Romaji.FeedSingle | typing_game/game.js:88-118 | typing one key is one step |
| Romaji.RunSingle | typing_game/game.js:88-118 | typing one key into the processor is one call of `input` |
| Romaji.FeedOkFirst | typing_game/game.js:88-118 | an OK first key followed by a run ending in a status gives a run ending in that status |
| Romaji.DoneIsTerminal | typing_game/game.js:89 | once the index reaches the end, every further key is DONE and changes nothing |
| Romaji.TypeChunk | typing_game/game.js:94-113 | typing a candidate with no shorter candidate among its prefixes gives OK for all but its last key and commits it there |
| Romaji.TypeLastKey | typing_game/game.js:100-113 | the last key of a candidate commits it and moves the index by the consumed count |
| Romaji.DefaultChunk | typing_game/game.js:224-241 | a canonical chunk consumes 1 or 2 kana and stays within the sentence |
| Romaji.NoProperPrefixConcat | typing_game/game.js:120-158 | the no-shorter-prefix condition holds over the concatenated candidate parts when it holds over each |
| Romaji.DefaultChunkIsCandidate | typing_game/game.js:222-243 | on a typeable sentence the canonical chunk is a candidate at its position, consumes what the generator skips, and has no shorter candidate among its prefixes |
| Romaji.ComboChunkIsCandidate | typing_game/game.js:228-233 | the same for a pair with a combo spelling: its first combo spelling, consuming two kana |
| Romaji.SokuonChunkIsCandidate | typing_game/game.js:234-238 | the same for a small tsu before a kana: the next kana's first letter, consuming one |
| Romaji.KanaChunkIsCandidate | typing_game/game.js:240 | the same for a kana spelled on its own: its first table spelling, consuming one |
| Romaji.NoEarlyCompletion | typing_game/game.js:100-113 | no proper prefix of the canonical chunk completes a candidate first |
| Romaji.TypeDefaultChunk | typing_game/game.js:222-243 | typing the canonical chunk at any position of a typeable sentence is OK…OK then a commit |
| Romaji.FeedDefaultString | typing_game/game.js:222-243 | typing the canonical spelling from position i reaches the end with an empty buffer and the completed text extended by it, with statuses OK…OK, DONE |
| Romaji.FeedJoin | typing_game/game.js:88-118 | an OK-ending run followed by a DONE-ending run is a DONE-ending run |
| Romaji.OkThenConcat | typing_game/game.js:88-118 | status sequences of the form OK…OK compose |
| Romaji.AllChunksType | typing_game/game.js:222-243 | on a typeable sentence every position's canonical chunk types cleanly |
| Romaji.OkThenNoError | typing_game/game.js:88-118 | an OK…OK, DONE status sequence holds no ERROR |
| Romaji.RoundTrip | typing_game/game.js:79-243 | typing `generateDefaultString(0)` of a non-empty typeable sentence into a fresh processor never yields ERROR, ends with DONE and leaves the cursor at the end with the whole spelling completed |
| Romaji.FirstWithPrefix | typing_game/game.js:201-202 | the index found is the first candidate that starts with the buffer, or none does |
| Romaji.Suffix | typing_game/game.js:204-205 | the prediction is what follows the buffer in the chosen candidate |
| Romaji.Predicted | typing_game/game.js:201-202 | a candidate is chosen for the prediction exactly when there are candidates |
| Romaji.PredictedExtends | typing_game/game.js:201-202 | when the buffer is a strict prefix of some candidate, the chosen one is the first candidate starting with it |
| Romaji.PredictionSplits | typing_game/game.js:201-205 | the chosen candidate's position, with every earlier candidate not starting with the buffer |
| Romaji.PredictionOf | typing_game/game.js:204-205 | the chosen candidate is the buffer followed by the prediction |
| Romaji.FutureOf | typing_game/game.js:208-210 | the future is the canonical spelling after the kana the chosen candidate consumes |
| Romaji.DisplayParts | typing_game/game.js:189-220 | the display holds the cursor's completed text and buffer; at the end prediction, future and next key are empty; with candidates, prediction and future come from the first candidate starting with the buffer |
| Romaji.DisplayFound | typing_game/game.js:198-211 | the second half of the display rule, with candidates, on its own |
| Romaji.NextCharOf | typing_game/game.js:218 | the highlighted key is the chosen candidate's next letter after the buffer |
| Romaji.BufferShorter | typing_game/game.js:218 | a buffer that is not a candidate is strictly shorter than the chosen candidate, and buffer+next letter still starts it |
| Romaji.ExtendingKeyAccepted | typing_game/game.js:94-100 | a key that keeps the buffer a prefix of a candidate is not an ERROR |
| Romaji.CandidatesNonEmpty | typing_game/game.js:120-158 | with the game's tables no candidate spelling is empty |
| Romaji.NextKeyAccepted | typing_game/game.js:189-220 | at a position with candidates, the display always highlights a next key, and typing that key is never an ERROR |
| Romaji.DefaultStringStep | typing_game/game.js:224-241 | one loop step of the generator keeps `str + rest` equal to the canonical spelling |
| Romaji.DefaultStringUnfold | typing_game/game.js:224-241 | the canonical spelling is the chunk here followed by the spelling after the kana it consumes |
| Romaji.DoublingLettersPrefix | typing_game/game.js:136-140 | one loop step of the consonant collection appends a new doubling initial and skips a repeated one |
| Romaji.SingletonsPrefix | typing_game/game.js:136-140 | the one-letter candidates of a prefix grow by one letter per step |
| Romaji.SingletonsSnoc | typing_game/game.js:136-140 | the same for a letter appended |
| Romaji.RomajiProcessor.constructor | typing_game/game.js:80-85 | a new processor is at index 0 with empty buffer and completed text |
| Romaji.RomajiProcessor.Input | typing_game/game.js:88-118 | the returned status and the new cursor are exactly the step of the matcher on the old cursor, and the processor's invariant is kept |
| Romaji.RomajiProcessor.GetPossibleRomajis | typing_game/game.js:120-158 | the list built is the combo entries, then the doubled consonants for っ, then the single-kana entries |
| Romaji.RomajiProcessor.GenerateDefaultString | typing_game/game.js:222-243 | the loop builds exactly the canonical spelling from the start index |
| Romaji.RomajiProcessor.DefaultChunkAt | typing_game/game.js:226-240 | one iteration's chunk and skip are the canonical chunk at that position |
| Romaji.RomajiProcessor.GetDisplayState | typing_game/game.js:189-220 | the display built is the display rule applied to the current cursor |
| TypingSession.UpperCase | typing_game/game.js:422 | `toUpperCase` on one character: a-z to A-Z, and the two non-ASCII letters that upper-case to I and S |
| TypingSession.KeyFilter | typing_game/game.js:420-423 | a key passes exactly when it is one character that upper-cases to A-Z or '-', and it passes upper-cased |
| TypingSession.KeyFilterAccepts | typing_game/game.js:420-423 | the filter's accepted keys, stated on the character itself |
| TypingSession.TimePenalty | typing_game/game.js:468-472 | the time penalty is floor(2 × seconds): the number of whole half-seconds elapsed |
| TypingSession.RoundScore | typing_game/game.js:468-476 | the round score is max(0, 100 − time penalty − 10 × mistakes) |
| TypingSession.RoundScoreBounds | typing_game/game.js:468-476 | a round scores at most 100, and exactly 100 iff it took under half a second with no mistake |
| TypingSession.RoundScoreMonotone | typing_game/game.js:468-476 | more time or more mistakes never score more |
| TypingSession.TotalOfAppend | typing_game/game.js:476-484 | recording a round adds its score to the total of the history |
| TypingSession.Session.constructor | typing_game/game.js:2-12 | a new session has no questions, no history and a zero total, and is not active |
| TypingSession.Session.StartGame | typing_game/game.js:268-286 | starting resets the total, the history and the question index to 0 and is active iff there are questions; with questions the first sentence loads (a fresh processor on it at its start, no mistakes, the clock started now), without any the processor, mistakes and start time stay |
| TypingSession.Session.LoadQuestion | typing_game/game.js:297-328 | past the last question the game stops and nothing else changes; otherwise a fresh processor for the question, no mistakes, the start time set |
| TypingSession.Session.HandleInput | typing_game/game.js:402-459 | inactive or filtered keys change nothing; otherwise the key goes to the processor, each ERROR adds exactly 1 to the mistakes, and DONE completes the question |
| TypingSession.Session.CompleteQuestion | typing_game/game.js:461-492 | the game stops, the round score is added to the total and a record with it is appended to the history |
| TypingSession.Session.NextQuestion | typing_game/game.js:488-491 | the index advances by one, the questions are kept, and the game stays active iff a question remains; then that sentence loads (fresh processor, no mistakes, clock started now), otherwise processor, mistakes and start time stay |
| MathQuiz.MakeQuestion | math_game/script.js:48-72 | a question for slot i is well posed: the tier is 20, 100 or 1000 by slot; addition has 1 ≤ a ≤ max−1, 1 ≤ b ≤ max−a, answer a+b ≤ max; subtraction has 1 ≤ a ≤ max, 0 ≤ b < a, answer a−b ≥ 1 |
| MathQuiz.AnswerRange | math_game/script.js:62-72 | every answer lies between 1 and 1000 |
| MathQuiz.GenerateQuestions | math_game/script.js:44-82 | exactly ten questions, each the well-posed question for its slot and draws |
| MathQuiz.Decimal | math_game/script.js:124 | a decimal numeral is a non-empty string of digits |
| MathQuiz.DecimalValue | math_game/script.js:124 | reading back a decimal numeral gives the number |
| MathQuiz.SkipWhite | math_game/script.js:124 | `parseInt` skips leading white space: the rest is a suffix not starting with white space |
| MathQuiz.LeadingDigits | math_game/script.js:124 | the digit run read is maximal |
| MathQuiz.ParseInt | math_game/script.js:124 | `parseInt(text, 10)` is a number exactly when digits follow the white space and optional sign; otherwise NaN |
| MathQuiz.ParseSignedDecimal | math_game/script.js:124 | white space, then an integer written in decimal, then a non-digit tail parses back to that integer |
| MathQuiz.SignThenDigits | math_game/script.js:124 | the sign is split off before the digits |
| MathQuiz.SkipPad | math_game/script.js:124 | leading white space is skipped up to the first other character |
| MathQuiz.DigitsThenStop | math_game/script.js:124 | the digit run stops at the first non-digit |
| MathQuiz.QuestionText | math_game/script.js:130 | the question text a record keeps, as in "5 + 3" |
| MathQuiz.CorrectCount | math_game/script.js:129-138 | the number of correct records is at most the number of records |
| MathQuiz.CorrectCountAppend | math_game/script.js:129-138 | appending a record adds one to the correct count exactly when it is correct |
| MathQuiz.Quiz.constructor | math_game/script.js:6-9 | no questions, index 0, score 0, no answers, input disabled |
| MathQuiz.Quiz.StartGame | math_game/script.js:84-96 | ten fresh questions; index, score and answers reset; input enabled |
| MathQuiz.Quiz.SubmitAnswer | math_game/script.js:116-142 | with input disabled or empty nothing changes; otherwise exactly one record is appended, input is disabled, and the score grows by 1 iff the parsed answer equals the question's |
| MathQuiz.Quiz.NextQuestion | math_game/script.js:176-184 | the index advances by one and input is enabled iff a question remains |
| MathQuiz.Quiz.ScoreBounded | math_game/script.js:84-184 | the score never exceeds the answers recorded, which never exceed ten |
| Geometry.Inset | hang-glider/src/Entities.js:36-38 | an inset box's far edges move in by the inset |
| Geometry.InsetWithin | hang-glider/src/Entities.js:36-38 | a hit box inset from a sprite's box overlaps only what the sprite's box overlaps |
| Geometry.ClosedOverlapIffSharedPoint | hang-glider/src/Game.js:182-187 | `rectIntersect` is true exactly when the two closed boxes share a point |
| Geometry.ClosedOverlapSymmetric | hang-glider/src/Game.js:182-187 | `rectIntersect` is symmetric |
| Geometry.StrictOverlapIffSharedInterior | parachute/game.js:174-179 | the strict test is true exactly when the boxes share an interior point |
| Geometry.StrictOverlapSymmetric | parachute/game.js:174-179 | the strict test is symmetric |
| Geometry.StrictImpliesClosed | parachute/game.js:174-179 | strict overlap implies closed overlap, and boxes touching at an edge overlap closed but not strictly |
| GliderEntities.ContainBounds | hang-glider/src/Entities.js:20-24 | when the sprite fits, the contained coordinate keeps it on screen; when it does not, the far edge wins |
| GliderEntities.ContainKeepsInside | hang-glider/src/Entities.js:20-24 | a sprite already on screen is not moved by the containment |
| GliderEntities.MovedFacts | hang-glider/src/Entities.js:56-59 | a move changes only x, by exactly the speed; the mark is set exactly when the sprite is wholly off the left edge, and is never cleared |
| GliderEntities.Player.constructor | hang-glider/src/Entities.js:2-12 | the glider is 64×64 at (100, height/2) with speed 5 |
| GliderEntities.Player.Update | hang-glider/src/Entities.js:14-25 | each axis moves by the held keys and is contained; with the game at least the glider's size, 0 ≤ x ≤ width−64 and 0 ≤ y ≤ height−64 |
| GliderEntities.Player.Bounds | hang-glider/src/Entities.js:36-38 | the hit box is the sprite with each side moved in by 10 |
| GliderEntities.Obstacle.constructor | hang-glider/src/Entities.js:42-54 | a new obstacle starts at the right edge, unmarked, 64×64, with 0 ≤ y < height−64 |
| GliderEntities.Obstacle.Update | hang-glider/src/Entities.js:56-59 | the obstacle makes one move as `Moved` describes |
| GliderEntities.Obstacle.Bounds | hang-glider/src/Entities.js:70-72 | the hit box is the sprite with each side moved in by 5 |
| GliderEntities.Item.constructor | hang-glider/src/Entities.js:76-87 | a new sweet starts at the right edge, unmarked, 48×48, with 0 ≤ y < height−48 |
| GliderEntities.Item.Update | hang-glider/src/Entities.js:89-92 | the sweet makes one move as `Moved` describes |
| GliderEntities.Item.Bounds | hang-glider/src/Entities.js:103-105 | the hit box is the sprite itself |
| GliderGame.SurvivorsMembers | hang-glider/src/Game.js:70-71 | the filter keeps exactly the unmarked entities |
| GliderGame.SurvivorsUnmarkedCount | hang-glider/src/Game.js:70-71 | after the filter no listed entity is marked |
| GliderGame.MarkHitsCount | hang-glider/src/Game.js:152-180 | the collision pass marks exactly the unmarked entities the glider touches, one more mark per hit |
| GliderGame.MarkedAreHits | hang-glider/src/Game.js:152-180 | after the pass over unmarked entities every marked one touches the glider |
| GliderGame.ScrolledUnmarked | hang-glider/src/Game.js:66-71 | after moving and filtering nothing listed is marked |
| GliderGame.CollidedAccounts | hang-glider/src/Game.js:152-180 | each obstacle hit costs exactly one life; each sweet hit gives exactly 100 points; the game is over iff some obstacle was hit and lives dropped to 0 or below |
| GliderGame.NewObstacle | hang-glider/src/Entities.js:42-54 | a new obstacle: at the right edge, unmarked, 64×64, speed bgSpeed+2, its y a draw scaled to the height left |
| GliderGame.NewItem | hang-glider/src/Entities.js:76-87 | a new sweet: the same with 48×48 |
| GliderGame.Restarted | hang-glider/src/Game.js:189-200 | `reset`: score 0, 3 lives, game time 0, no entities, the glider at (100, height/2), PLAYING; background and timers kept |
| GliderGame.PlayingFrame | hang-glider/src/Game.js:41-74 | one frame of play in the source's order: clock, background, glider, spawns, moves, filter, collisions, goal |
| GliderGame.Tick | hang-glider/src/Game.js:40-95 | `update`: a frame of play while PLAYING; otherwise Enter or Space restarts after an end and starts from the title |
| GliderGame.Transitions | hang-glider/src/Game.js:77-94 | START goes to PLAYING on Enter or Space; GAMEOVER and WIN restart on Enter or Space with score 0, 3 lives, no entities and the glider at (100, height/2); PLAYING wins iff the game time reaches the goal time, and is over iff lives dropped to 0 or below in this frame |
| GliderGame.PlayingFrameAccounts | hang-glider/src/Game.js:40-95 | after a frame of play the glider is on screen; every marked entity still listed was hit in this frame; lives fell by the obstacles hit and the score rose by 100 per sweet hit |
| GliderGame.TickKeepsInv | hang-glider/src/Game.js:40-95 | every frame keeps the score a non-negative multiple of 100, lives at most 3 and positive outside GAMEOVER, and the background offset in (−width, 0] |
| GliderGame.Initial | hang-glider/src/Game.js:6-38 | the game as built meets that invariant |
| GliderGame.DistinctSnoc | hang-glider/src/Game.js:49-63 | pushing a new entity keeps the list free of repeats |
| GliderGame.UnmarkedObstacles | hang-glider/src/Game.js:70 | the filtered obstacle list holds only listed obstacles |
| GliderGame.UnmarkedObstaclesFacts | hang-glider/src/Game.js:70 | the filtered obstacles' states are the surviving states, and no obstacle appears twice |
| GliderGame.UnmarkedItems | hang-glider/src/Game.js:71 | the filtered sweet list holds only listed sweets |
| GliderGame.UnmarkedItemsFacts | hang-glider/src/Game.js:71 | the filtered sweets' states are the surviving states, and no sweet appears twice |
| GliderGame.Game.constructor | hang-glider/src/Game.js:6-38 | a new game is in START with score 0, 3 lives and no entities |
| GliderGame.Game.Update | hang-glider/src/Game.js:40-95 | the new state is the frame step of the old one, and the class invariant is kept |
| GliderGame.Game.PlayFrame | hang-glider/src/Game.js:42-81 | a frame of play: the playing frame step |
| GliderGame.Game.CheckGoal | hang-glider/src/Game.js:77-81 | PLAYING becomes WIN once the game time reaches the goal time |
| GliderGame.Game.AdvanceAndScroll | hang-glider/src/Game.js:42-71 | clock, background, spawns, moves and the filter, in the source's order |
| GliderGame.Game.Advance | hang-glider/src/Game.js:42-67 | clock, background wrap, the two spawn timers and the glider's move |
| GliderGame.Game.ScrollEntities | hang-glider/src/Game.js:66-71 | every entity moves, then the marked ones leave the lists |
| GliderGame.Game.ScrollObstacles | hang-glider/src/Game.js:66-70 | the obstacles move and the marked ones leave, nothing else changes |
| GliderGame.Game.ScrollItems | hang-glider/src/Game.js:67-71 | the sweets move and the marked ones leave, nothing else changes |
| GliderGame.Game.SpawnObstacle | hang-glider/src/Game.js:49-55 | past the interval exactly one fresh obstacle is pushed and the timer resets to 0; otherwise the timer grows by the frame time |
| GliderGame.Game.SpawnItem | hang-glider/src/Game.js:57-63 | the same for the sweet timer |
| GliderGame.Game.MoveObstacles | hang-glider/src/Game.js:66 | every obstacle makes one move |
| GliderGame.Game.MoveItems | hang-glider/src/Game.js:67 | every sweet makes one move |
| GliderGame.Game.CheckCollisions | hang-glider/src/Game.js:152-180 | the new state is the collision step of the old one |
| GliderGame.Game.CheckObstacles | hang-glider/src/Game.js:155-168 | unmarked obstacles touching the glider are marked, each costs one life, GAMEOVER once lives ≤ 0 after a hit, and the loop goes on |
| GliderGame.Game.HitObstacles | hang-glider/src/Game.js:156-167 | the loop over the obstacles marks the hits and removes one life per hit, so lives can drop below 0 |
| GliderGame.Game.CheckItems | hang-glider/src/Game.js:170-179 | unmarked sweets touching the glider are marked and each adds exactly 100 |
| GliderGame.Game.CollectItems | hang-glider/src/Game.js:171-179 | the loop over the sweets marks the hits and adds 100 per hit |
| GliderGame.Game.TestObstacle | hang-glider/src/Game.js:157-160 | an obstacle is hit iff unmarked and its inset box meets the glider's; a hit marks it |
| GliderGame.Game.TestItem | hang-glider/src/Game.js:172-175 | a sweet is hit iff unmarked and its box meets the glider's; a hit marks it |
| GliderGame.Game.Reset | hang-glider/src/Game.js:189-200 | the restart: score 0, 3 lives, game time 0, no entities, the glider at (100, height/2), PLAYING |
| Helicopter.CheckCollision | helicopter_game/game.js:308-318 | a hit exactly when the two boxes, each shrunk by 10 on every side, overlap strictly |
| Helicopter.CheckCollisionSymmetric | helicopter_game/game.js:308-318 | the collision test is symmetric |
| Helicopter.MovePlayer | helicopter_game/game.js:201-204 | the four arrow moves, each only while the player is not yet at that edge |
| Helicopter.MovePlayerStaysOnGrid | helicopter_game/game.js:201-204 | a guarded move keeps the player on its grid of reachable positions, moves each axis by at most the speed, and not at all without its keys |
| Helicopter.ScrollBg | helicopter_game/game.js:207-208 | the background offset stays in [0, canvas height) |
| Helicopter.Kept | helicopter_game/game.js:211-222 | the backward splice loop keeps a sub-list of the entities that stay, no longer than the original |
| Helicopter.KeptMembers | helicopter_game/game.js:211-222 | an entity remains exactly when it was listed and stays on screen |
| Helicopter.KeptCons | helicopter_game/game.js:211-222 | removal keeps the survivors' order |
| Helicopter.TreePhase | helicopter_game/game.js:211-222 | the backward tree loop: each tree falls; a hit crashes and stops the loop; a tree below the screen is removed |
| Helicopter.TreePhaseCrashIff | helicopter_game/game.js:211-222 | the tree phase crashes exactly when some fallen tree touches the player |
| Helicopter.FallAll | helicopter_game/game.js:212 | every tree moves down by its speed |
| Helicopter.TreePhaseClean | helicopter_game/game.js:211-222 | without a crash the trees are the fallen ones still on screen, in order |
| Helicopter.TreePhaseSuffix | helicopter_game/game.js:214-217 | a crash stops the loop: the trees before it in the list, which the backward walk has not reached, stay as they were |
| Helicopter.RowStepAccounting | helicopter_game/game.js:225-303 | a row's score change is +100 for a newly passed gap and −100 per newly hit rock; flags once set stay set; the row moves down by 3 and keeps its geometry |
| Helicopter.RowStepFlags | helicopter_game/game.js:236-297 | a rock is charged exactly when not yet hit and touching the player; the gap pays exactly when not yet passed and the player's centre is strictly inside the rock band and the gap |
| Helicopter.RowsPhase | helicopter_game/game.js:225-303 | the backward row loop: each row steps, its score changes add up, and a row below the screen is removed |
| Helicopter.StepAll | helicopter_game/game.js:225-303 | every row takes one step |
| Helicopter.RowsPhaseFacts | helicopter_game/game.js:225-303 | the rock rows left are the stepped rows still on screen, in order, and the frame's score change lies between −200 and +100 per row |
| Helicopter.NewTrees | helicopter_game/game.js:149-160 | with a draw below 0.02 one 60×60 tree at y = −70 and a drawn x within the canvas, otherwise none |
| Helicopter.NewRows | helicopter_game/game.js:162-197 | with a draw below 0.008 one gate row, otherwise none |
| Helicopter.GateGeometry | helicopter_game/game.js:149-197 | a gate has 120 ≤ gapWidth ≤ 200 and 50 ≤ gapX ≤ width−gapWidth−50; the left rock ends at gapX, the right rock starts at gapX+gapWidth, no flag is set; new trees lie within the canvas |
| Helicopter.Game.constructor | helicopter_game/game.js:15-88 | the start screen, score 0, full time, the player at its start position, no obstacles |
| Helicopter.Game.StartGame | helicopter_game/game.js:103-133 | play with score 0, full time, the player at its start and no obstacles |
| Helicopter.Game.EndGame | helicopter_game/game.js:135-147 | the game ends, as mission complete exactly for a time-up |
| Helicopter.Game.TimerTick | helicopter_game/game.js:122-129 | in play one second less, and the game ends as time-up at 0 or below; otherwise nothing |
| Helicopter.Game.Update | helicopter_game/game.js:199-306 | the player steers and the background scrolls; a tree crash ends the game and the frame; otherwise the rows step, score and are cleaned, and new obstacles are appended |
| Helicopter.Game.Steer | helicopter_game/game.js:201-208 | the guarded moves and the background scroll |
| Helicopter.Game.MoveTrees | helicopter_game/game.js:211-222 | the backward tree loop as the tree phase describes |
| Helicopter.Game.FallTrees | helicopter_game/game.js:211-222 | the loop computes the tree phase |
| Helicopter.Game.MoveRockRows | helicopter_game/game.js:225-303 | the backward row loop as the row phase describes, its score change added |
| Helicopter.Game.StepRows | helicopter_game/game.js:225-303 | the loop computes the row phase |
| Helicopter.Game.StepRow | helicopter_game/game.js:226-297 | one row's move, rock penalties and gap award |
| Helicopter.Game.SpawnObstacles | helicopter_game/game.js:149-197 | the new trees and rows are appended, nothing else changes |
| Parachute.CheckCollision | parachute/game.js:174-179 | a hit exactly when the boxes overlap strictly |
| Parachute.TimeLeft | parachute/game.js:122-129 | the time left is never negative and at most 120 |
| Parachute.TimeLeftZero | parachute/game.js:122-129 | the time is up exactly from frame 7200 on |
| Parachute.Steer | parachute/game.js:132-137 | left, then right, then the clamp to [0, width−player width] |
| Parachute.SteerBounds | parachute/game.js:132-137 | after steering 0 ≤ x ≤ width−player width; from on screen a step is at most the speed, and nothing moves with both or neither key |
| Parachute.ObjectsPhase | parachute/game.js:145-171 | the backward object loop: each object rises; a catch scores ±100, is removed and loses at once on a negative score; an object above the top is removed |
| Parachute.ObjectsPhaseFacts | parachute/game.js:145-171 | the pass is lost exactly when the score went negative; it stays a multiple of 100, at least −100, and rises by at most 100 per object; without a loss no remaining object touches the player or has left the screen |
| Parachute.RiseAll | parachute/game.js:146 | every object rises by 3 |
| Parachute.MissedCons | parachute/game.js:145-171 | an object stays exactly when it neither touched the player nor left the top, and order is kept |
| Parachute.ObjectsPhaseClean | parachute/game.js:145-171 | without a loss the objects left are the risen ones that stay, and the score changes by the values of those caught |
| Parachute.ObjectsPhaseSuffix | parachute/game.js:160-163 | a loss stops the loop: the objects not yet visited stay as they were |
| Parachute.NewThing | parachute/game.js:101-115 | a new object is 40×40 at y = height+20 with 0 ≤ x and x+40 < width |
| Parachute.KindOdds | parachute/game.js:104-110 | meteor iff the draw picks 3 or 4 of 5; candy iff it picks 0 or 1 |
| Parachute.Game.constructor | parachute/game.js:15-26 | the start screen, score 0, frame 0, the player centred, no objects |
| Parachute.Game.StartGame | parachute/game.js:90-99 | play with score 0, frame 0, the player centred, no objects |
| Parachute.Game.EndGame | parachute/game.js:181-186 | the game ends, won or lost as given |
| Parachute.Game.Update | parachute/game.js:117-172 | outside play nothing; in play one frame more; with time up a win before anything moves; otherwise steer, spawn on every 60th frame, then the object pass, ending the game as a loss exactly when the pass lost |
| Parachute.Game.SteerPlayer | parachute/game.js:132-137 | the clamped steering step |
| Parachute.Game.SpawnObject | parachute/game.js:101-115 | one new object is appended |
| Parachute.Game.MoveObjects | parachute/game.js:145-171 | the backward splice loop computes the object pass, skipping no element |
| DogLevel.Clamp | dog_game/src/scenes/GameScene.js:155-157 | the clamped height lies within the bounds, and a height already within them is kept |
| DogLevel.Tiles | dog_game/src/scenes/GameScene.js:160 | an island has 2 to 6 tiles |
| DogLevel.AppendIsland | dog_game/src/scenes/GameScene.js:158-180 | appending an island after the last platform keeps all of the generator's promises |
| DogLevel.RemainingShrinks | dog_game/src/scenes/GameScene.js:146-181 | every iteration leaves less of the level, so the walk terminates |
| DogLevel.WalkGap | dog_game/src/scenes/GameScene.js:150-151 | a gap step moves the walk on by 100 + 50r and lays nothing |
| DogLevel.WalkIsland | dog_game/src/scenes/GameScene.js:152-178 | an island step lays one island at the clamped height and the tile or cut-off width, then walks on from its end |
| DogLevel.GapKeeps | dog_game/src/scenes/GameScene.js:150-151 | a gap keeps the generator's loop invariant |
| DogLevel.IslandKeeps | dog_game/src/scenes/GameScene.js:152-178 | laying an island keeps the generator's loop invariant |
| DogLevel.Walk | dog_game/src/scenes/GameScene.js:147-180 | the walk after the start block: until x reaches the level width, a gap of 100 + 50r pixels, or an island one tile up, down or level, clamped to 200-550, of ⌊2 + 5r⌋ tiles cut at the level's end |
| DogLevel.WalkWithin | dog_game/src/scenes/GameScene.js:147-180 | every island of the walk lies between the walk's start and the level's end |
| DogLevel.GenerateLevel | dog_game/src/scenes/GameScene.js:121-182 | the platforms are exactly the start block followed by the walk from x = 800 at height 500 over the given draws; and the start block first, every platform between heights 200 and 550, platforms left to right without overlap, neighbours at most one tile apart in height, islands a whole 2-6 tiles wide or cut at the level's end, never past it |
| DogScene.ContactOutcome | dog_game/src/scenes/GameScene.js:194-210 | nothing exactly during the first 3000 ms; after it a stomp exactly when falling while above the enemy's middle; anything else hurts |
| DogScene.Numbers | dog_game/src/scenes/GameScene.js:184-192 | the enemies spawned are numbered 0 to n−1 |
| DogScene.AllEnemies | dog_game/src/scenes/GameScene.js:184-192 | a fresh level has the 20 enemies |
| DogScene.Scene.constructor | dog_game/src/scenes/GameScene.js:74-98 | a fresh scene: score 0, 180 seconds, no end, play running, all enemies |
| DogScene.Scene.GameOver | dog_game/src/scenes/GameScene.js:222-232 | the game is over, the player dead, play paused and the clock stopped; a second call changes nothing |
| DogScene.Scene.WinGame | dog_game/src/scenes/GameScene.js:234-242 | the game is won, play paused and the clock stopped; a second call changes nothing |
| DogScene.Scene.OnTimerTick | dog_game/src/scenes/GameScene.js:212-220 | after an end nothing; otherwise one second less, game over exactly when none is left, and score, enemies, spawn time and the player's velocity unchanged |
| DogScene.Scene.HandleEnemyCollision | dog_game/src/scenes/GameScene.js:194-210 | in the grace period nothing; a stomp removes the enemy, bounces the player and adds 100, nothing else changing; a hurt ends the game, nothing else changing |
| DogScene.Scene.RemoveFallen | dog_game/src/scenes/GameScene.js:113-118 | exactly the enemies with y ≤ 700 stay (screen y grows downward); nothing else changes |
| DogScene.Scene.RestartKey | dog_game/src/scenes/GameScene.js:92-98 | the space key restarts a fresh scene after an end and does nothing during play |
| DogScene.Scene.Restart | dog_game/src/scenes/GameScene.js:92-98 | the restart leaves a fresh scene |
| DogTransparency.CornerSamples | dog_game/src/scenes/GameScene.js:261-273 | the pixels numbered 0, 1, width and width+1, as `getPixel` addresses them, each `undefined` (`None`) past the end of the data |
| DogTransparency.BackgroundColors | dog_game/src/scenes/GameScene.js:267-285 | the palette is exactly the first-come one (`Greedy`), and it starts with the first corner sample, comes from the samples, holds no two close colours, and every sample is in it or close to one of its colours |
| DogTransparency.Greedy | dog_game/src/scenes/GameScene.js:275-285 | the first-come palette: the samples in order, each kept unless close to one kept before it |
| DogTransparency.GreedyPalette | dog_game/src/scenes/GameScene.js:275-285 | the first-come palette is a palette of its samples |
| DogTransparency.FirstComePalette | dog_game/src/scenes/GameScene.js:275-285 | for samples (0,0,0), (40,0,0), (60,0,0) the loop keeps exactly the first two |
| DogTransparency.AnotherPalette | dog_game/src/scenes/GameScene.js:275-285 | for the same samples the first and third also form a palette, so only the loop's order fixes which one is built |
| DogTransparency.PaletteStep | dog_game/src/scenes/GameScene.js:275-285 | one more sample keeps the palette a palette: it joins unless close to a colour already there |
| DogTransparency.PaletteSkip | dog_game/src/scenes/GameScene.js:279-281 | a sample close to a kept colour leaves the palette a palette of the longer sample list |
| DogTransparency.PaletteJoin | dog_game/src/scenes/GameScene.js:282-284 | a sample close to no kept colour joins, and the palette stays one |
| DogTransparency.PalettePrefix | dog_game/src/scenes/GameScene.js:275-285 | the same, one loop step over the samples |
| DogTransparency.IdxBounds | dog_game/src/scenes/GameScene.js:298-302 | a pixel inside the image has a pixel number inside the data |
| DogTransparency.IdxInjective | dog_game/src/scenes/GameScene.js:298-302 | different pixels have different pixel numbers |
| DogTransparency.IdxOthers | dog_game/src/scenes/GameScene.js:298-313 | writing one pixel leaves every other pixel's slot alone |
| DogTransparency.Neighbours | dog_game/src/scenes/GameScene.js:314-319 | the neighbours queued are exactly the in-bounds 4-neighbours |
| DogTransparency.UnvisitedMark | dog_game/src/scenes/GameScene.js:301-303 | marking a pixel visited leaves one pixel fewer to visit, so the fill terminates |
| DogTransparency.InitInv | dog_game/src/scenes/GameScene.js:295-300 | the fill's invariant holds with the four corners queued and nothing visited |
| DogTransparency.SkipVisited | dog_game/src/scenes/GameScene.js:301-302 | dropping an already visited pixel keeps the invariant |
| DogTransparency.VisitOther | dog_game/src/scenes/GameScene.js:303-310 | visiting a non-background pixel marks it and keeps the invariant |
| DogTransparency.VisitBg | dog_game/src/scenes/GameScene.js:303-320 | visiting a background pixel clears its alpha, marks it, queues its neighbours and keeps the invariant |
| DogTransparency.BgQueue | dog_game/src/scenes/GameScene.js:314-319 | the queued neighbours lie in the image and come from the cleared pixel |
| DogTransparency.BgPixels | dog_game/src/scenes/GameScene.js:311-313 | clearing the pixel keeps the colours and the other alphas, and records it cleared |
| DogTransparency.OriginReach | dog_game/src/scenes/GameScene.js:295-320 | a pixel about to be cleared is joined to a corner by background pixels |
| DogTransparency.BgColours | dog_game/src/scenes/GameScene.js:313 | writing an alpha byte leaves every colour byte alone |
| DogTransparency.BgCleared | dog_game/src/scenes/GameScene.js:311-313 | every cleared pixel is visited and transparent |
| DogTransparency.BgOthers | dog_game/src/scenes/GameScene.js:313 | every pixel not cleared keeps its alpha |
| DogTransparency.BgVisited | dog_game/src/scenes/GameScene.js:303-313 | every visited background pixel is cleared |
| DogTransparency.ReachNext | dog_game/src/scenes/GameScene.js:314-319 | a background neighbour of a reached pixel is reached one step later |
| DogTransparency.ClearAt | dog_game/src/scenes/GameScene.js:303-313 | clearing and marking a pixel changes no other pixel's mark or alpha |
| DogTransparency.CoverKept | dog_game/src/scenes/GameScene.js:301-303 | taking the head of the queue and marking it keeps every pixel visited or queued |
| DogTransparency.AroundKept | dog_game/src/scenes/GameScene.js:301-303 | the same for the neighbours of a cleared pixel |
| DogTransparency.CoverGrows | dog_game/src/scenes/GameScene.js:314-319 | a covered pixel stays covered when more are queued |
| DogTransparency.AroundGrows | dog_game/src/scenes/GameScene.js:314-319 | the same for the neighbours of a cleared pixel |
| DogTransparency.BgCover | dog_game/src/scenes/GameScene.js:314-319 | after a background visit the corners and the neighbours of every cleared pixel are visited or queued |
| DogTransparency.NeighboursCovered | dog_game/src/scenes/GameScene.js:314-319 | the neighbours just queued are covered |
| DogTransparency.StepCleared | dog_game/src/scenes/GameScene.js:295-320 | once the queue is empty, a background neighbour of a cleared pixel is cleared |
| DogTransparency.FillDone | dog_game/src/scenes/GameScene.js:295-320 | with the queue empty the invariant gives the fill's result |
| DogTransparency.ColourSlots | dog_game/src/scenes/GameScene.js:313 | the colour bytes of a pixel are not its alpha byte |
| DogTransparency.FloodFill | dog_game/src/scenes/GameScene.js:295-321 | only alpha bytes change; the cleared pixels are transparent and every other alpha is kept; a pixel is cleared exactly when it is background and joined to a corner by background pixels |
| DogTransparency.VisitPixel | dog_game/src/scenes/GameScene.js:301-320 | one visit keeps the fill's invariant and leaves fewer pixels unvisited |
| DogTransparency.MakeTransparent | dog_game/src/scenes/GameScene.js:244-325 | the palette is the first-come palette of the corner samples of the original data, and the fill from the corners with it clears exactly the reachable background pixels |
| GridPaths.ReachWithin | hang-glider/process_transparency.py:79-106 | a set holding the starts in the mask and closed under mask neighbours holds every reachable pixel |
| GridPaths.ReachStep | hang-glider/process_transparency.py:104-106 | a mask neighbour of a reached pixel is reached |
| RgbaImage.KeyOut | hang-glider/fix_player.py:21-22 | a write keeps the colour and sets alpha to 0 when it clears, and leaves the pixel untouched otherwise |
| RgbaImage.Grid | hang-glider/process_transparency.py:12-14 | the image snapshot has the image's pixels at its coordinates |
| RgbaImage.ClearWhere | hang-glider/fix_player.py:15-22 | every pixel, visited once, loses its alpha exactly when the test holds of its own original value, and everything else is kept |
| ChromaKey.FirstMatch | hang-glider/chroma_key.py:19-24 | breaking at the first matching key is the same as asking whether any key matches |
| ChromaKey.ChromaKeyTransparency | hang-glider/chroma_key.py:9-27 | a pixel's alpha becomes 0 exactly when some key is within its tolerance on all three channels; the colour is kept and other pixels are unchanged |
| ChromaKey.KeySetsDisjoint | hang-glider/chroma_key.py:34-47 | no pixel matches both a green key and a magenta key |
| FixPlayer.RemoveGreenBackground | hang-glider/fix_player.py:9-25 | a pixel's alpha becomes 0 exactly when g > 100, g > r+30 and g > b+30; the colour is kept and other pixels are unchanged |
| FixPlayer.GreenScreenCoversGreenKeys | hang-glider/fix_player.py:21 | every pixel the green chroma keys clear is also cleared by the green-screen test, but not the other way round |
| FixPlayerWhite.RemoveWhiteBackground | hang-glider/fix_player_white.py:9-25 | a pixel's alpha becomes 0 exactly when r, g and b all exceed 240; the colour is kept and other pixels are unchanged |
| FixPlayerWhite.WhiteIsNotGreen | hang-glider/fix_player_white.py:21 | no pixel with 8-bit channels is both near white and green screen |
| ProcessTransparency.GrayAmongInside | hang-glider/process_transparency.py:50-56 | the gray neighbours counted are among the in-bounds neighbours |
| ProcessTransparency.CornersKept | hang-glider/process_transparency.py:50-60 | an image corner has at most two in-bounds neighbours, so the gray pass never clears it |
| ProcessTransparency.CountGrayNeighbours | hang-glider/process_transparency.py:50-56 | the count is the number of in-bounds 4-neighbours whose colour is gray in the original image |
| ProcessTransparency.MakeTransparent | hang-glider/process_transparency.py:10-63 | a pixel's alpha becomes 0 exactly when it is gray within 10, opaque and has at least 3 gray in-bounds neighbours in the original image; the colour is kept and other pixels are unchanged |
| ProcessTransparency.RegionFillable | hang-glider/process_transparency.py:84-103 | a pixel of a corner's region is in the image and passes the corner's colour test |
| ProcessTransparency.AlphaAfter | hang-glider/process_transparency.py:72-109 | a pixel's alpha after the first k corner fills: cleared by a fill whose corner was still opaque at its turn and whose region holds it, otherwise as before |
| ProcessTransparency.ClearedOnlyIfFillable | hang-glider/process_transparency.py:65-109 | after the corners, a pixel's alpha is either kept or 0, and 0 only when it lies in the image and passes the gray and distance test against one of the corners' start colours |
| ProcessTransparency.FloodFillTransparency | hang-glider/process_transparency.py:65-109 | the four corner fills in order: the colour is kept everywhere and the alpha is what the corner fills give |
| ProcessTransparency.FillCorner | hang-glider/process_transparency.py:72-106 | a corner whose start pixel is already transparent changes nothing; otherwise exactly its region loses its alpha and everything else is kept |
| ProcessTransparency.Walk | hang-glider/process_transparency.py:79-106 | the stack loop visits exactly the corner's region and clears each visited pixel |
| ProcessTransparency.FillStep | hang-glider/process_transparency.py:80-106 | one pop keeps the loop's invariants and makes progress: fewer region pixels left, or a shorter stack |
| ProcessTransparency.ClearPixel | hang-glider/process_transparency.py:105 | clearing the popped pixel keeps the painted invariant |
| ProcessTransparency.MaskAgrees | hang-glider/process_transparency.py:88-103 | the test on the current pixel agrees with the region mask, because only alpha has changed |
| ProcessTransparency.MaskInImage | hang-glider/process_transparency.py:84-85 | out-of-bounds coordinates are never in the region |
| ProcessTransparency.MaskMember | hang-glider/process_transparency.py:92-103 | an in-image pixel is in the mask exactly when it passes the colour test |
| ProcessTransparency.PopKeeps | hang-glider/process_transparency.py:80-87 | dropping a visited or failing pixel keeps the loop's invariants |
| ProcessTransparency.PushKeeps | hang-glider/process_transparency.py:103-106 | visiting a passing pixel and pushing its four neighbours keeps the loop's invariants |
| ProcessTransparency.Shrinks | hang-glider/process_transparency.py:103-104 | visiting a new region pixel leaves fewer to visit |
| ProcessTransparency.FillDone | hang-glider/process_transparency.py:79-106 | with the stack empty the visited set is exactly the region |

## Left out

- Audio, speech, drawing, DOM and canvas wiring, and the timers
  (`setInterval`, `setTimeout`, `requestAnimationFrame`). One step or one
  event handler is modelled; when it runs is not.
- Random draws are parameters in [0, 1). `selectRandomQuestions` in the
  typing game sorts with a random comparator, so the chosen sentences are
  a parameter of `TypingSession.Session.StartGame`.
- Floating-point arithmetic is modelled as exact `real` arithmetic. This
  covers positions, speeds, `deltaTime / 1000` and the `Math.random()`
  products. Rounding is not modelled.
- TypingSession.KeyFilter: `toUpperCase` is modelled for the characters
  whose upper case is an ASCII letter. Every other character stays as it
  is. No other character upper-cases to a single letter or hyphen, so the
  filter's verdict is the same.
- Romaji.FirstLetter: gives ' ' for an empty spelling. This cannot
  happen with the game's tables (`TypingTables.SourceTablesOk`).
- Romaji.RomajiProcessor.DefaultChunkAt: gives ' ' for an empty spelling.
  This cannot happen with the game's tables.
- The typing game's Enter routing in `handleInput`
  (`typing_game/game.js:408-417`) is left out. It depends on which overlay
  is visible, and the overlays are DOM state. Both of its targets,
  `startGame` and `retryGame` (which only calls `startGame`), are
  `TypingSession.Session.StartGame`.
- The typing session's feedback, sounds and keyboard highlighting are
  left out, as are the math quiz's feedback text, encouragement messages
  and result screen.
- MathQuiz.ParseInt: the white space skipped before the digits is the
  ASCII set, the no-break space and the byte-order mark. The other Unicode
  space separators and the line and paragraph separators that ECMAScript
  also skips are not included.
  Numbers are unbounded, so `parseInt`'s float rounding of very long
  digit strings is not modelled.
- The hang-glider's key handling and canvas
  (`hang-glider/src/Input.js`) are not part of this model. Keys arrive as
  the set of held key names.
- Helicopter and parachute entities are object literals in arrays. They
  are modelled as values in sequences, which loses nothing because the
  arrays hold no shared objects.
- Dog platformer: Phaser physics, velocities, the camera, text objects,
  `Player.js`, `Enemy.js` (`takeDamage` and movement) and the game
  configuration. Enemy heights arrive as a parameter of
  `DogScene.Scene.RemoveFallen`.
- DogScene.Scene.Restart: `scene.restart()` rebuilds the scene and, with
  it, regenerates the level. The level regeneration is not repeated
  here; `DogLevel.GenerateLevel` is the generator.
- DogTransparency.MakeTransparent: requires an image of at least 1×1.
  The source's early return for a missing texture is left out, as are
  `getImageData` and `putImageData`. The set of cleared pixels is a ghost
  result.
- The asset scripts' `Image.open`, `save`, `shutil` copies and
  hard-coded paths are left out. Only the pixel loops are modelled.
- ProcessTransparency.MakeTransparent: the script computes an
  `is_checkered_pos` value that no decision uses. It does not appear in
  the model.
- ProcessTransparency.FloodFillTransparency: requires a non-empty image.
  The script raises an `IndexError` on a 0-size image.
- Rgba channels are unbounded integers, except where `Channels` is
  required (`FixPlayerWhite.WhiteIsNotGreen`).
- ChromaKey.ChromaKeyTransparency: writes the pixel after the key loop
  has found a match, rather than inside it before the `break`. The two
  are equivalent (`ChromaKey.FirstMatch`).
- The rest of the repository is not part of this model:
  - `zeleznik/` (numerical thermodynamics);
  - `test/main.js` (a three.js scene);
  - `parachute/main.py` (a pygame wrapper);
  - `dog_game/src/game.js` (engine configuration).
