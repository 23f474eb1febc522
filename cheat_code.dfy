/**
 * The arrow-key cheat code that switches free flight on. Every frame the
 * component looks at the keys pressed in that frame and advances, restarts or
 * times out its position in the configured key sequence; entering the whole
 * sequence raises one free-flight request.
 */
module FreeFlyCheat {

  /** The keys the component distinguishes: the four arrows and any other key. */
  datatype Key = UpArrow | DownArrow | LeftArrow | RightArrow | Other(code: int)

  predicate IsArrow(k: Key) { !k.Other? }

  /** Up up down down left right left right. */
  const DefaultSequence: seq<Key> := [UpArrow, UpArrow, DownArrow, DownArrow, LeftArrow, RightArrow, LeftArrow, RightArrow]

  /** The inspector settings: the sequence, the longest pause between two keys, and whether a match starts over. */
  datatype CheatConfig = CheatConfig(sequence: seq<Key>, maxStepInterval: real, resetAfterTrigger: bool)

  const DefaultConfig := CheatConfig(DefaultSequence, 0.8, true)

  /** How far into the sequence the player is, and when the last counted key came. */
  datatype Progress = Progress(index: int, lastTime: real)

  const Initial := Progress(0, -999.0)

  /** One frame: the clock reading and the keys that went down in it. */
  datatype Frame = Frame(time: real, down: set<Key>)

  /** The outcome of a frame: the new progress and whether the sequence was completed. */
  datatype Outcome = Outcome(progress: Progress, matched: bool)

  /** The progress once a pause longer than the limit has passed: back to the start. */
  function AfterPause(c: CheatConfig, p: Progress, now: real): Progress
  {
    if now - p.lastTime > c.maxStepInterval then Progress(0, p.lastTime) else p
  }

  /**
   * One frame of the component. With an empty sequence nothing happens.
   * Otherwise a pause longer than the limit first resets the position; then
   * the expected key advances it (and completing the sequence is a match),
   * while any arrow key that is not the expected one restarts it, at 1 when
   * it is the first key of the sequence and at 0 otherwise.
   */
  function Step(c: CheatConfig, p: Progress, f: Frame): (r: Outcome)
    ensures |c.sequence| == 0 ==> r == Outcome(p, false)
    ensures r.matched <==>
      (|c.sequence| > 0 && AfterPause(c, p, f.time).index == |c.sequence| - 1 && c.sequence[|c.sequence| - 1] in f.down)
    ensures r.matched ==> r.progress == Progress(if c.resetAfterTrigger then 0 else |c.sequence|, f.time)
    ensures (forall k :: k in f.down ==> !IsArrow(k) && k !in c.sequence) ==>
      r.progress == AfterPause(c, p, f.time) || |c.sequence| == 0
  {
    var n := |c.sequence|;
    if n == 0 then Outcome(p, false)
    else
      var q := AfterPause(c, p, f.time);
      if 0 <= q.index < n && c.sequence[q.index] in f.down then
        if q.index + 1 >= n then
          Outcome(Progress(if c.resetAfterTrigger then 0 else n, f.time), true)
        else
          Outcome(Progress(q.index + 1, f.time), false)
      else if UpArrow in f.down || DownArrow in f.down || LeftArrow in f.down || RightArrow in f.down then
        Outcome(Progress(if c.sequence[0] in f.down then 1 else 0, f.time), false)
      else
        Outcome(q, false)
  }

  /** The position never leaves [0, length of the sequence]. */
  predicate InRange(c: CheatConfig, p: Progress)
  {
    0 <= p.index <= |c.sequence|
  }

  /** Every frame keeps the position in range. */
  lemma StepInRange(c: CheatConfig, p: Progress, f: Frame)
    requires InRange(c, p)
    ensures InRange(c, Step(c, p, f).progress)
  {
  }

  /**
   * A wrong arrow restarts the sequence: when the expected key is not pressed
   * but an arrow is, the position becomes 1 if the first key of the sequence
   * is among the pressed keys and 0 otherwise, with no match.
   */
  lemma WrongArrowRestarts(c: CheatConfig, p: Progress, f: Frame, a: Key)
    requires InRange(c, p) && |c.sequence| > 0
    requires var i := AfterPause(c, p, f.time).index; i == |c.sequence| || c.sequence[i] !in f.down
    requires IsArrow(a) && a in f.down
    ensures Step(c, p, f) == Outcome(Progress(if c.sequence[0] in f.down then 1 else 0, f.time), false)
  {
  }

  /** The position before each frame of a run and after the last one. */
  function Positions(c: CheatConfig, p: Progress, frames: seq<Frame>): (ps: seq<Progress>)
    ensures |ps| == |frames| + 1 && ps[0] == p
    ensures forall k {:trigger frames[k]} :: 0 <= k < |frames| ==> ps[k + 1] == Step(c, ps[k], frames[k]).progress
    decreases |frames|
  {
    if |frames| == 0 then [p]
    else
      var rest := Positions(c, Step(c, p, frames[0]).progress, frames[1..]);
      assert forall k :: 0 < k < |frames| ==> frames[k] == frames[1..][k - 1];
      [p] + rest
  }

  /**
   * The matches of a run of frames, one per frame: frame k matches exactly
   * when Step, from the position the earlier frames left, matches.
   */
  function Run(c: CheatConfig, p: Progress, frames: seq<Frame>): (r: seq<bool>)
    ensures |r| == |frames|
    ensures forall k :: 0 <= k < |frames| ==> r[k] == Step(c, Positions(c, p, frames)[k], frames[k]).matched
    decreases |frames|
  {
    if |frames| == 0 then []
    else
      var o := Step(c, p, frames[0]);
      var rest := Run(c, o.progress, frames[1..]);
      assert forall k :: 0 < k < |frames| ==>
        frames[k] == frames[1..][k - 1] && Positions(c, p, frames)[k] == Positions(c, o.progress, frames[1..])[k - 1];
      [o.matched] + rest
  }

  /** Frames that press, one at a time, the keys of the sequence from `start` on. */
  predicate Typed(c: CheatConfig, start: int, frames: seq<Frame>)
    requires 0 <= start <= |c.sequence|
  {
    && |frames| == |c.sequence| - start
    && forall k :: 0 <= k < |frames| ==> frames[k].down == {c.sequence[start + k]}
  }

  /** No pause between consecutive frames exceeds the limit. */
  predicate Brisk(c: CheatConfig, frames: seq<Frame>)
  {
    forall k :: 0 < k < |frames| ==> frames[k].time - frames[k - 1].time <= c.maxStepInterval
  }

  /** No match, n times, then one match. */
  function MatchAtEnd(n: nat): (r: seq<bool>)
    ensures |r| == n + 1 && r[n]
    ensures forall k :: 0 <= k < n ==> !r[k]
  {
    if n == 0 then [true] else [false] + MatchAtEnd(n - 1)
  }

  /** The frames after the first of a typed, brisk run are typed and brisk from the next key. */
  lemma TypedTail(c: CheatConfig, start: int, frames: seq<Frame>)
    requires 0 <= start < |c.sequence| && Typed(c, start, frames) && Brisk(c, frames)
    ensures Typed(c, start + 1, frames[1..]) && Brisk(c, frames[1..])
  {
    var rest := frames[1..];
    forall k | 0 <= k < |rest|
      ensures rest[k].down == {c.sequence[start + 1 + k]}
    {
      assert rest[k] == frames[k + 1];
    }
    forall k | 0 < k < |rest|
      ensures rest[k].time - rest[k - 1].time <= c.maxStepInterval
    {
      assert rest[k] == frames[k + 1] && rest[k - 1] == frames[k];
    }
  }

  /**
   * Part way into the sequence, pressing the remaining keys one per frame
   * without pausing too long matches on the last key and not before.
   */
  lemma {:induction false} TypingRestMatches(c: CheatConfig, p: Progress, frames: seq<Frame>)
    requires 0 <= p.index < |c.sequence|
    requires Typed(c, p.index, frames)
    requires AfterPause(c, p, frames[0].time).index == p.index && Brisk(c, frames)
    ensures Run(c, p, frames) == MatchAtEnd(|frames| - 1)
    decreases |frames|
  {
    var o := Step(c, p, frames[0]);
    assert c.sequence[p.index] in frames[0].down;
    if p.index + 1 < |c.sequence| {
      assert o == Outcome(Progress(p.index + 1, frames[0].time), false);
      var rest := frames[1..];
      TypedTail(c, p.index, frames);
      assert AfterPause(c, o.progress, rest[0].time).index == p.index + 1;
      TypingRestMatches(c, o.progress, rest);
      assert Run(c, p, frames) == [false] + Run(c, o.progress, rest);
    } else {
      assert o.matched;
      assert Run(c, p, frames) == [true] + Run(c, o.progress, frames[1..]);
    }
  }

  /**
   * From the start of the sequence (for instance after a long pause), typing
   * the whole sequence briskly matches exactly once, on the last key; the
   * first key may come after any pause.
   */
  lemma TypingSequenceMatches(c: CheatConfig, p: Progress, frames: seq<Frame>)
    requires |c.sequence| > 0 && Typed(c, 0, frames)
    requires AfterPause(c, p, frames[0].time).index == 0 && Brisk(c, frames)
    ensures Run(c, p, frames) == MatchAtEnd(|c.sequence| - 1)
  {
    var q' := Progress(0, frames[0].time);
    assert Step(c, p, frames[0]) == Step(c, q', frames[0]);
    assert Run(c, p, frames) == Run(c, q', frames);
    TypingRestMatches(c, q', frames);
  }

  /** The component: its settings, its position in the sequence, and whether an entity world was found on wake. */
  class FreeFlyCheatCode {
    var config: CheatConfig
    var index: int
    var lastTime: real
    var hasEntityManager: bool

    constructor (config: CheatConfig)
      ensures this.config == config && index == 0 && lastTime == -999.0 && !hasEntityManager
    {
      this.config := config;
      index := 0;
      lastTime := -999.0;
      hasEntityManager := false;
    }

    /** Wake-up: the default entity world's manager is kept when there is one. */
    method Awake(worldExists: bool)
      modifies this`hasEntityManager
      ensures hasEntityManager == worldExists
    {
      hasEntityManager := worldExists;
    }

    /**
     * One frame. The position advances as `Step` says; a match creates one
     * free-flight request when an entity world was found.
     */
    method Update(f: Frame) returns (requested: bool)
      modifies this`index, this`lastTime
      ensures var o := Step(config, Progress(old(index), old(lastTime)), f);
        index == o.progress.index && lastTime == o.progress.lastTime && requested == (o.matched && hasEntityManager)
    {
      requested := false;
      var n := |config.sequence|;
      if n == 0 {
        return;
      }
      if f.time - lastTime > config.maxStepInterval {
        index := 0;
      }
      if 0 <= index < n && config.sequence[index] in f.down {
        index := index + 1;
        lastTime := f.time;
        if index >= n {
          requested := hasEntityManager;
          index := if config.resetAfterTrigger then 0 else n;
        }
      } else if UpArrow in f.down || DownArrow in f.down || LeftArrow in f.down || RightArrow in f.down {
        index := if config.sequence[0] in f.down then 1 else 0;
        lastTime := f.time;
      }
    }
  }
}
