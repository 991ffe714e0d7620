/** The parachute game: the player drifts left and right while sweets,
    umbrellas and meteors rise past; catching a sweet or an umbrella
    scores 100, a meteor costs 100, a negative score loses, and lasting
    two minutes of frames wins. The falling-object records are plain
    values in the game's list. */
module Parachute {
  import opened Geometry
  import opened Rand

  const ScreenWidth: int := 800
  const ScreenHeight: int := 600
  const DurationSec: int := 120
  const SpawnRate: int := 60
  const PlayerWidth: int := 40
  const PlayerHeight: int := 60
  const PlayerSpeed: int := 5
  const PlayerY: int := 100

  /** The plain overlap test of the player's and an object's boxes. */
  function CheckCollision(p: Box, o: Box): (hit: bool)
    ensures hit <==> StrictOverlap(p, o)
  {
    p.x < o.x + o.w && p.x + p.w > o.x && p.y < o.y + o.h && p.y + p.h > o.y
  }

  /** The seconds left after `frames` frames at sixty a frame-second,
      never below zero. */
  function TimeLeft(frames: int): (t: int)
    ensures 0 <= t
    ensures frames >= 0 ==> t <= DurationSec
  {
    var t := DurationSec - frames / 60;
    if t < 0 then 0 else t
  }

  /** Time runs out exactly at frame 7200. */
  lemma TimeLeftZero(frames: nat)
    ensures TimeLeft(frames) <= 0 <==> frames >= DurationSec * 60
  {
  }

  /** Steering, then clamping to the screen. */
  function Steer(x: int, left: bool, right: bool): (r: int)
  {
    var x1 := if left then x - PlayerSpeed else x;
    var x2 := if right then x1 + PlayerSpeed else x1;
    var x3 := if x2 < 0 then 0 else x2;
    if x3 > ScreenWidth - PlayerWidth then ScreenWidth - PlayerWidth else x3
  }

  /** After steering the player lies on the screen whatever its start, and
      a player on the screen moves by at most its speed. */
  lemma SteerBounds(x: int, left: bool, right: bool)
    ensures 0 <= Steer(x, left, right) <= ScreenWidth - PlayerWidth
    ensures 0 <= x <= ScreenWidth - PlayerWidth ==> -PlayerSpeed <= Steer(x, left, right) - x <= PlayerSpeed
    ensures left == right && 0 <= x <= ScreenWidth - PlayerWidth ==> Steer(x, left, right) == x
  {
  }

  function PlayerBox(x: int): Box
  {
    Box(x as real, PlayerY as real, PlayerWidth as real, PlayerHeight as real)
  }

  datatype Kind = Candy | Umbrella | Meteor

  /** A rising object. `active` is set when it spawns and never read. */
  datatype Thing = Thing(kind: Kind, x: real, y: real, width: real, height: real, active: bool)

  function ThingBox(o: Thing): Box
  {
    Box(o.x, o.y, o.width, o.height)
  }

  /** The score change of catching an object. */
  function Value(k: Kind): int
  {
    if k == Meteor then -100 else 100
  }

  /** An object moved up one frame. */
  function Rise(o: Thing): Thing
  {
    o.(y := o.y - 3.0)
  }

  predicate Gone(o: Thing) { o.y + o.height < 0.0 }

  /** The objects after the object loop, the score, and whether the loop
      stopped the game. */
  datatype ObjectPass = ObjectPass(objects: seq<Thing>, score: int, lost: bool)

  /** The object loop, which runs from the last object to the first: an
      object rises; one that touches the player is removed and scored, and
      a score below zero stops the loop and loses; one wholly above the
      screen is removed. Peeling the first object off the front, the rest
      is processed before it, and after a loss further in the first object
      is left as it was. */
  function ObjectsPhase(p: Box, score: int, os: seq<Thing>): ObjectPass
  {
    if os == [] then ObjectPass([], score, false)
    else
      var rest := ObjectsPhase(p, score, os[1..]);
      if rest.lost then ObjectPass([os[0]] + rest.objects, rest.score, true)
      else
        var o := Rise(os[0]);
        if CheckCollision(p, ThingBox(o)) then
          var s := rest.score + Value(o.kind);
          ObjectPass(rest.objects, s, s < 0)
        else ObjectPass((if Gone(o) then [] else [o]) + rest.objects, rest.score, false)
  }

  /** From a score that is not negative, the loop loses exactly when it
      leaves a negative score; every catch moves the score by 100; and
      without a loss no object left touches the player or is wholly above
      the screen. */
  lemma {:induction false} ObjectsPhaseFacts(p: Box, score: int, os: seq<Thing>)
    requires score >= 0 && score % 100 == 0
    ensures var r := ObjectsPhase(p, score, os);
            (r.lost <==> r.score < 0) && r.score % 100 == 0 && r.score >= -100 &&
            r.score <= score + 100 * |os| &&
            (!r.lost ==> forall o | o in r.objects :: !CheckCollision(p, ThingBox(o)) && !Gone(o))
  {
    if os != [] {
      ObjectsPhaseFacts(p, score, os[1..]);
    }
  }

  function RiseAll(os: seq<Thing>): (r: seq<Thing>)
    ensures |r| == |os| && forall i | 0 <= i < |os| :: r[i] == Rise(os[i])
  {
    seq(|os|, i requires 0 <= i < |os| => Rise(os[i]))
  }

  /** The objects that, after rising, neither touch the player nor have
      left the screen, in order. */
  function Missed(p: Box, os: seq<Thing>): (r: seq<Thing>)
  {
    if os == [] then []
    else Missed(p, os[..|os| - 1]) +
         (if CheckCollision(p, ThingBox(os[|os| - 1])) || Gone(os[|os| - 1]) then [] else [os[|os| - 1]])
  }

  lemma {:induction false} MissedCons(p: Box, o: Thing, os: seq<Thing>)
    ensures Missed(p, [o] + os) == (if CheckCollision(p, ThingBox(o)) || Gone(o) then [] else [o]) + Missed(p, os)
    decreases |os|
  {
    if os == [] {
      assert [o] + os == [o];
      assert [o][..0] == [];
    } else {
      var xs := [o] + os;
      assert xs[..|xs| - 1] == [o] + os[..|os| - 1];
      MissedCons(p, o, os[..|os| - 1]);
    }
  }

  /** The sum of the values of the risen objects that touch the player. */
  function Caught(p: Box, os: seq<Thing>): int
  {
    if os == [] then 0
    else Caught(p, os[1..]) + (if CheckCollision(p, ThingBox(os[0])) then Value(os[0].kind) else 0)
  }

  /** Without a loss every object rises, the caught ones are scored and
      removed, and the rest stay in order unless they left the screen. */
  lemma {:induction false} ObjectsPhaseClean(p: Box, score: int, os: seq<Thing>)
    requires !ObjectsPhase(p, score, os).lost
    ensures ObjectsPhase(p, score, os).objects == Missed(p, RiseAll(os))
    ensures ObjectsPhase(p, score, os).score == score + Caught(p, RiseAll(os))
  {
    if os != [] {
      ObjectsPhaseClean(p, score, os[1..]);
      assert RiseAll(os) == [Rise(os[0])] + RiseAll(os[1..]);
      assert RiseAll(os)[1..] == RiseAll(os[1..]);
      MissedCons(p, Rise(os[0]), RiseAll(os[1..]));
    }
  }

  /** A loss in a suffix leaves the objects before it untouched. */
  lemma {:induction false} ObjectsPhaseSuffix(p: Box, score: int, os: seq<Thing>, i: nat)
    requires i <= |os| && ObjectsPhase(p, score, os[i..]).lost
    ensures ObjectsPhase(p, score, os) ==
            ObjectPass(os[..i] + ObjectsPhase(p, score, os[i..]).objects, ObjectsPhase(p, score, os[i..]).score, true)
    decreases i
  {
    if i > 0 {
      assert os[1..][i - 1..] == os[i..];
      ObjectsPhaseSuffix(p, score, os[1..], i - 1);
      assert os[..i] == [os[0]] + os[1..][..i - 1];
    }
  }

  /** The draws of one spawn: the kind and the position. */
  datatype SpawnDraws = SpawnDraws(kind: real, x: real)

  predicate SpawnDrawsOk(d: SpawnDraws) { IsDraw(d.kind) && IsDraw(d.x) }

  /** The kind list: two sweets, an umbrella and two meteors. */
  function KindAt(k: int): Kind
  {
    if k <= 1 then Candy else if k == 2 then Umbrella else Meteor
  }

  /** A new object just below the screen at a random x that keeps it on
      the screen. */
  function NewThing(d: SpawnDraws): (o: Thing)
    requires SpawnDrawsOk(d)
    ensures 0.0 <= o.x && o.x + o.width < ScreenWidth as real
    ensures o.y == (ScreenHeight + 20) as real && o.width == 40.0 && o.height == 40.0
  {
    Thing(KindAt(Pick(d.kind, 5)), Scale(d.x, (ScreenWidth - 40) as real), (ScreenHeight + 20) as real, 40.0, 40.0, true)
  }

  /** Two draws in five give a meteor. */
  lemma KindOdds(d: SpawnDraws)
    requires SpawnDrawsOk(d)
    ensures NewThing(d).kind == Meteor <==> Pick(d.kind, 5) >= 3
    ensures NewThing(d).kind == Candy <==> Pick(d.kind, 5) <= 1
  {
  }

  datatype GameState = Start | Playing | GameOver

  class Game {
    var state: GameState
    var score: int
    var frames: int
    var playerX: int
    var objects: seq<Thing>
    /** Which end screen shows: the time ran out (true) or the score went
        below zero (false). */
    var won: bool

    /** While playing the score is a whole number of catches, not
        negative, the clock has not run out and the player is on the
        screen. */
    predicate Valid()
      reads this
    {
      0 <= playerX <= ScreenWidth - PlayerWidth && frames >= 0 &&
      (state == Playing ==> score >= 0 && score % 100 == 0 && TimeLeft(frames) > 0)
    }

    constructor ()
      ensures Valid() && state == Start && score == 0 && frames == 0
      ensures playerX == ScreenWidth / 2 && objects == []
    {
      state := Start;
      score := 0;
      frames := 0;
      playerX := ScreenWidth / 2;
      objects := [];
      won := false;
    }

    method StartGame()
      modifies this
      ensures Valid() && state == Playing && score == 0 && frames == 0
      ensures playerX == ScreenWidth / 2 && objects == [] && won == old(won)
    {
      state := Playing;
      score := 0;
      frames := 0;
      objects := [];
      playerX := ScreenWidth / 2;
    }

    method EndGame(win: bool)
      modifies this
      ensures state == GameOver && won == win
      ensures score == old(score) && frames == old(frames) && playerX == old(playerX) && objects == old(objects)
    {
      state := GameOver;
      won := win;
    }

    /** One frame. Outside play nothing happens. Otherwise the clock
        advances and at zero the game is won; else the player steers, an
        object spawns every sixty frames, and the objects rise, score and
        leave. */
    method Update(left: bool, right: bool, d: SpawnDraws)
      requires Valid() && SpawnDrawsOk(d)
      modifies this
      ensures Valid()
      ensures old(state) != Playing ==> unchanged(this)
      ensures old(state) == Playing ==> frames == old(frames) + 1
      ensures old(state) == Playing && TimeLeft(frames) <= 0 ==>
                state == GameOver && won && score == old(score) &&
                playerX == old(playerX) && objects == old(objects)
      ensures old(state) == Playing && TimeLeft(frames) > 0 ==>
                playerX == Steer(old(playerX), left, right) &&
                var spawned := old(objects) + (if frames % SpawnRate == 0 then [NewThing(d)] else []);
                var r := ObjectsPhase(PlayerBox(playerX), old(score), spawned);
                objects == r.objects && score == r.score && won == (old(won) && !r.lost) &&
                (state == GameOver <==> r.lost) && (!r.lost ==> state == Playing)
    {
      if state != Playing {
        return;
      }
      frames := frames + 1;
      var timeLeft := TimeLeft(frames);
      if timeLeft <= 0 {
        EndGame(true);
        return;
      }
      SteerPlayer(left, right);
      if frames % SpawnRate == 0 {
        SpawnObject(d);
      }
      ghost var spawned := objects;
      assert spawned == old(objects) + (if frames % SpawnRate == 0 then [NewThing(d)] else []);
      ghost var r := ObjectsPhase(PlayerBox(playerX), score, spawned);
      ObjectsPhaseFacts(PlayerBox(playerX), score, spawned);
      var lost;
      objects, score, lost := MoveObjects(objects, PlayerBox(playerX), score);
      assert ObjectPass(objects, score, lost) == r;
      if lost {
        EndGame(false);
      }
    }

    method SteerPlayer(left: bool, right: bool)
      modifies this
      ensures playerX == Steer(old(playerX), left, right)
      ensures state == old(state) && score == old(score) && frames == old(frames)
      ensures objects == old(objects) && won == old(won)
    {
      var x := playerX;
      if left { x := x - PlayerSpeed; }
      if right { x := x + PlayerSpeed; }
      if x < 0 { x := 0; }
      if x > ScreenWidth - PlayerWidth { x := ScreenWidth - PlayerWidth; }
      playerX := x;
      SteerBounds(old(playerX), left, right);
    }

    method SpawnObject(d: SpawnDraws)
      requires SpawnDrawsOk(d)
      modifies this
      ensures objects == old(objects) + [NewThing(d)]
      ensures state == old(state) && score == old(score) && frames == old(frames)
      ensures playerX == old(playerX) && won == old(won)
    {
      var kinds := [Candy, Candy, Umbrella, Meteor, Meteor];
      var kind := kinds[Pick(d.kind, |kinds|)];
      var obj := Thing(kind, Scale(d.x, (ScreenWidth - 40) as real), (ScreenHeight + 20) as real, 40.0, 40.0, true);
      objects := objects + [obj];
    }

    /** The object loop, from the last object to the first. */
    static method MoveObjects(os: seq<Thing>, p: Box, score: int) returns (objs: seq<Thing>, newScore: int, lost: bool)
      ensures ObjectPass(objs, newScore, lost) == ObjectsPhase(p, score, os)
    {
      objs := os;
      newScore := score;
      var i := |objs|;
      while i > 0
        invariant 0 <= i <= |os|
        invariant objs == os[..i] + ObjectsPhase(p, score, os[i..]).objects
        invariant newScore == ObjectsPhase(p, score, os[i..]).score
        invariant !ObjectsPhase(p, score, os[i..]).lost
        decreases i
      {
        i := i - 1;
        assert os[i..] == [os[i]] + os[i + 1..];
        assert objs[i] == os[i];
        var obj := objs[i].(y := objs[i].y - 3.0);
        objs := objs[i := obj];
        if CheckCollision(p, ThingBox(obj)) {
          if obj.kind == Meteor {
            newScore := newScore - 100;
          } else {
            newScore := newScore + 100;
          }
          objs := objs[..i] + objs[i + 1..];
          if newScore < 0 {
            assert objs == os[..i] + ObjectsPhase(p, score, os[i..]).objects;
            ObjectsPhaseSuffix(p, score, os, i);
            return objs, newScore, true;
          }
          assert objs == os[..i] + ObjectsPhase(p, score, os[i..]).objects;
          continue;
        }
        if obj.y + obj.height < 0.0 {
          objs := objs[..i] + objs[i + 1..];
        }
        assert objs == os[..i] + ObjectsPhase(p, score, os[i..]).objects;
      }
      assert os[0..] == os;
      lost := false;
    }
  }
}
