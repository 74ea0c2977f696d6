/** The component model (components.py): the variants an entity can be given, and the state
    classes of the variants whose fields change after construction. Behaviours that act on their
    container entity are in module Entities, which imports this one. */
module Components {
  import opened Wrappers

  /** Texture handles are opaque; loading and drawing them is outside the model. */
  type Texture = nat

  /** A SpriteRenderer's texture and the width and height queried from it when it was made. */
  datatype Sprite = Sprite(texture: Texture, width: real, height: real)

  /** The concrete component classes: `isinstance` tests compare these. */
  datatype Kind =
    | SpriteRendererKind
    | AnimatorKind
    | VulnerableToBulletsKind
    | BulletMoverKind
    | KeyboardMoverKind
    | KeyboardShooterKind

  /** The exceptions the core raises. */
  datatype Error =
    | DuplicateComponent(kind: Kind)   // add_component: a component of this class is attached
    | MissingComponent(kind: Kind)     // get_component: none of this class is attached
    | MissingSequence(name: string)    // KeyError on Animator.sequences
    | ZeroSampleRate                   // ZeroDivisionError in Animator.update
    | FrameOutOfRange(frame: nat)      // IndexError in Sequence.current_texture
    | NoCollisionCircle                // IndexError on collisions[0] in BulletMover.update

  /** A component attached to an entity. The variants whose state never changes after
      construction are values; Animator and KeyboardShooter keep their mutable state in an
      object. VulnerableToBullets holds the sibling Animator it looked up when it was made, and
      KeyboardMover the sprite of its sibling SpriteRenderer. */
  datatype Component =
    | SpriteRenderer(sprite: Sprite)
    | AnimatorRef(animator: Animator)
    | VulnerableToBullets(animator: Animator)
    | BulletMover(speed: real)
    | KeyboardMover(speed: real, sprite: Sprite)
    | KeyboardShooterRef(shooter: KeyboardShooter)

  function KindOf(c: Component): Kind
  {
    match c
    case SpriteRenderer(_) => SpriteRendererKind
    case AnimatorRef(_) => AnimatorKind
    case VulnerableToBullets(_) => VulnerableToBulletsKind
    case BulletMover(_) => BulletMoverKind
    case KeyboardMover(_, _) => KeyboardMoverKind
    case KeyboardShooterRef(_) => KeyboardShooterKind
  }

  predicate HasKind(cs: seq<Component>, kind: Kind)
  {
    exists i :: 0 <= i < |cs| && KindOf(cs[i]) == kind
  }

  /** At most one component of each class. */
  predicate UniqueKinds(cs: seq<Component>)
  {
    forall i, j :: 0 <= i < j < |cs| ==> KindOf(cs[i]) != KindOf(cs[j])
  }

  /** Components that looked a sibling up when they were made come after it: VulnerableToBullets
      after the Animator it holds, KeyboardMover after the SpriteRenderer whose sprite it holds. */
  predicate SiblingsResolved(cs: seq<Component>)
  {
    forall i :: 0 <= i < |cs| ==>
      && (cs[i].VulnerableToBullets? ==> exists j :: 0 <= j < i && cs[j] == AnimatorRef(cs[i].animator))
      && (cs[i].KeyboardMover? ==> exists j :: 0 <= j < i && cs[j] == SpriteRenderer(cs[i].sprite))
  }

  /** What add_component does to a component list: append, unless a component of the same class is
      already attached (then the call raises and the list stays as it is). */
  function Attach(cs: seq<Component>, c: Component): seq<Component>
  {
    if HasKind(cs, KindOf(c)) then cs else cs + [c]
  }

  /** A series of add_component calls, in order. */
  function AttachAll(cs: seq<Component>, added: seq<Component>): seq<Component>
    decreases |added|
  {
    if added == [] then cs else AttachAll(Attach(cs, added[0]), added[1..])
  }

  lemma AttachKeepsUniqueKinds(cs: seq<Component>, c: Component)
    requires UniqueKinds(cs)
    ensures UniqueKinds(Attach(cs, c))
  {
    if !HasKind(cs, KindOf(c)) {
      var r := cs + [c];
      forall i, j | 0 <= i < j < |r| ensures KindOf(r[i]) != KindOf(r[j]) {
        if j == |cs| {
          assert r[i] == cs[i];
        }
      }
    }
  }

  /** An entity assembled only through add_component never holds two components of one class,
      whatever was attempted. */
  lemma {:induction false} AttachAllKeepsUniqueKinds(cs: seq<Component>, added: seq<Component>)
    requires UniqueKinds(cs)
    ensures UniqueKinds(AttachAll(cs, added))
    decreases |added|
  {
    if added != [] {
      AttachKeepsUniqueKinds(cs, added[0]);
      AttachAllKeepsUniqueKinds(Attach(cs, added[0]), added[1..]);
    }
  }

  /** Attaching never drops or reorders what was there. */
  lemma {:induction false} AttachAllExtends(cs: seq<Component>, added: seq<Component>)
    ensures cs <= AttachAll(cs, added)
    decreases |added|
  {
    if added != [] {
      AttachAllExtends(Attach(cs, added[0]), added[1..]);
    }
  }

  // ---------------------------------------------------------------------------------------------
  // Sequence

  /** One call of next_frame on a sequence of `count` frames: the new frame index and whether the
      sequence reports that it has finished. Only a non-looping sequence at its last frame is
      finished, and then the index stays where it is. */
  function FrameStep(frame: nat, count: nat, loop: bool): (r: (nat, bool))
    ensures r.1 <==> !loop && frame == count - 1
    ensures r.1 ==> r.0 == frame
    ensures frame < count ==> r.0 < count
    ensures frame < count - 1 ==> r == (frame + 1, false)
    ensures loop && frame == count - 1 ==> r == (0, false)
  {
    if frame == count - 1 then
      if loop then (0, false) else (frame, true)
    else
      (frame + 1, false)
  }

  /** The frame index after `k` calls of next_frame. */
  function FrameAfter(frame: nat, count: nat, loop: bool, k: nat): nat
    decreases k
  {
    if k == 0 then frame else FrameAfter(FrameStep(frame, count, loop).0, count, loop, k - 1)
  }

  /** Before the last frame, every call moves one frame on. */
  lemma {:induction false} FrameAfterAdvances(frame: nat, count: nat, loop: bool, k: nat)
    requires frame + k < count
    ensures FrameAfter(frame, count, loop, k) == frame + k
    decreases k
  {
    if k > 0 {
      FrameAfterAdvances(frame + 1, count, loop, k - 1);
    }
  }

  /** A looping sequence of n frames is back at its first frame after n calls. */
  lemma LoopingSequenceWraps(count: nat)
    requires count > 0
    ensures FrameAfter(0, count, true, count) == 0
  {
    FrameAfterAdvances(0, count, true, count - 1);
    FrameAfterSplit(0, count, true, count - 1, 1);
  }

  lemma {:induction false} FrameAfterSplit(frame: nat, count: nat, loop: bool, j: nat, k: nat)
    ensures FrameAfter(frame, count, loop, j + k) == FrameAfter(FrameAfter(frame, count, loop, j), count, loop, k)
    decreases j
  {
    if j > 0 {
      FrameAfterSplit(FrameStep(frame, count, loop).0, count, loop, j - 1, k);
    }
  }

  /** A non-looping sequence stops at its last frame and stays there: from any frame, any number
      of calls leaves it at the frame that many steps on, or at the last frame. */
  lemma {:induction false} NonLoopingSequenceStops(frame: nat, count: nat, k: nat)
    requires frame < count
    ensures FrameAfter(frame, count, false, k) == if frame + k < count then frame + k else count - 1
    decreases k
  {
    if k > 0 {
      NonLoopingSequenceStops(FrameStep(frame, count, false).0, count, k - 1);
    }
  }

  /** An animation: frames shown `sampleRate` times per second, with or without looping. The
      textures are given (the source loads every file of a directory in sorted order). */
  class Sequence {
    const textures: seq<Texture>
    const sampleRate: int
    const loop: bool
    var currentFrame: nat

    constructor (textures: seq<Texture>, sampleRate: int, loop: bool)
      ensures this.textures == textures && this.sampleRate == sampleRate && this.loop == loop
      ensures currentFrame == 0
    {
      this.textures := textures;
      this.sampleRate := sampleRate;
      this.loop := loop;
      currentFrame := 0;
    }

    /** current_texture: the texture of the current frame; IndexError past the last one. */
    function CurrentTexture(): (r: Result<Texture, Error>)
      reads this`currentFrame
      ensures r.Ok? <==> currentFrame < |textures|
      ensures r.Ok? ==> r.value == textures[currentFrame]
      ensures r.Err? ==> r.error == FrameOutOfRange(currentFrame)
    {
      if currentFrame < |textures| then Ok(textures[currentFrame]) else Err(FrameOutOfRange(currentFrame))
    }

    /** next_frame: advance one frame (wrapping when looping); true once a non-looping sequence
        sits at its last frame. */
    method NextFrame() returns (finished: bool)
      modifies this`currentFrame
      ensures (currentFrame, finished) == FrameStep(old(currentFrame), |textures|, loop)
    {
      finished := false;
      if currentFrame == |textures| - 1 {
        if loop {
          currentFrame := 0;
        } else {
          finished := true;
        }
      } else {
        currentFrame := currentFrame + 1;
      }
    }
  }

  // ---------------------------------------------------------------------------------------------
  // Animator

  /** Whether a frame change is due: at least 1000 / sampleRate milliseconds have passed. */
  predicate FrameDue(now: int, lastFrameChange: int, sampleRate: int)
    requires sampleRate != 0
  {
    (now - lastFrameChange) as real >= 1000.0 / sampleRate as real
  }

  /** For a positive rate the test needs no division: rate * elapsed >= 1000. */
  lemma FrameDueWithoutDivision(now: int, lastFrameChange: int, sampleRate: int)
    requires sampleRate > 0
    ensures FrameDue(now, lastFrameChange, sampleRate) <==> (now - lastFrameChange) * sampleRate >= 1000
  {
    var e, r := (now - lastFrameChange) as real, sampleRate as real;
    assert 1000.0 / r * r == 1000.0;
    if e >= 1000.0 / r {
      assert e * r >= 1000.0 / r * r;
    } else {
      assert e * r < 1000.0 / r * r;
    }
    assert (e * r) == ((now - lastFrameChange) * sampleRate) as real;
  }

  /** An Animator's playing sequence, frame timer and finished flag, with the frame index of each
      sequence it plays. */
  datatype AnimatorState = AnimatorState(playing: string, lastFrameChange: int, finished: bool, frames: map<Sequence, nat>)

  /** What Animator.update does, from the state before the call to the state after it. A missing
      sequence name raises KeyError and a zero sample rate ZeroDivisionError, both before
      anything changes. Otherwise, if a frame change of the current sequence is due, it advances
      one step, `finished` records whether it has finished and the timer restarts; if not,
      nothing changes. No other sequence changes in either case. */
  function AnimatorStep(sequences: map<string, Sequence>, st: AnimatorState, now: int): (AnimatorState, Outcome<Error>)
  {
    if st.playing !in sequences then (st, Fail(MissingSequence(st.playing)))
    else
      var s := sequences[st.playing];
      if s.sampleRate == 0 then (st, Fail(ZeroSampleRate))
      else if s in st.frames && FrameDue(now, st.lastFrameChange, s.sampleRate) then
        var step := FrameStep(st.frames[s], |s.textures|, s.loop);
        (st.(frames := st.frames[s := step.0], finished := step.1, lastFrameChange := now), Pass)
      else (st, Pass)
  }

  /** update fails exactly on a missing name or a zero rate, and then changes nothing. It never
      changes which sequence plays or any other sequence's frame. When it changes anything, the
      timer restarts at `now`, and `finished` says whether a non-looping sequence is at its last
      frame. The current frame index stays below the frame count. */
  lemma AnimatorStepSpec(sequences: map<string, Sequence>, st: AnimatorState, now: int)
    ensures var r := AnimatorStep(sequences, st, now);
      && (r.1.Fail? <==> st.playing !in sequences || sequences[st.playing].sampleRate == 0)
      && (r.1.Fail? ==> r.0 == st)
      && r.0.playing == st.playing && r.0.frames.Keys == st.frames.Keys
      && (forall t :: t in st.frames && (st.playing !in sequences || t != sequences[st.playing]) ==> r.0.frames[t] == st.frames[t])
      && (r.0 != st ==> r.0.lastFrameChange == now)
      && (r.0 != st ==> st.playing in sequences && sequences[st.playing] in st.frames)
      && (r.0 != st ==> r.0.finished == (!sequences[st.playing].loop &&
                                          st.frames[sequences[st.playing]] == |sequences[st.playing].textures| - 1))
      && (st.playing in sequences && sequences[st.playing] in st.frames &&
          st.frames[sequences[st.playing]] < |sequences[st.playing].textures| ==>
            r.0.frames[sequences[st.playing]] < |sequences[st.playing].textures|)
    ensures st.playing in sequences && sequences[st.playing].sampleRate != 0 ==>
      var s, r := sequences[st.playing], AnimatorStep(sequences, st, now);
      && (!FrameDue(now, st.lastFrameChange, s.sampleRate) ==> r == (st, Pass))
      && (FrameDue(now, st.lastFrameChange, s.sampleRate) && s in st.frames ==>
            && r.1 == Pass
            && r.0.frames[s] == FrameStep(st.frames[s], |s.textures|, s.loop).0
            && r.0.finished == FrameStep(st.frames[s], |s.textures|, s.loop).1
            && r.0.lastFrameChange == now)
  {
  }

  /** For a positive rate the gate is whole milliseconds times the rate against 1000: below it
      update changes nothing, at or above it the current sequence advances and the timer
      restarts. */
  lemma AnimatorGateForPositiveRate(sequences: map<string, Sequence>, st: AnimatorState, now: int)
    requires st.playing in sequences && sequences[st.playing].sampleRate > 0
    ensures var s, r := sequences[st.playing], AnimatorStep(sequences, st, now);
      && ((now - st.lastFrameChange) * s.sampleRate < 1000 ==> r == (st, Pass))
      && ((now - st.lastFrameChange) * s.sampleRate >= 1000 && s in st.frames ==>
            && r.1 == Pass
            && r.0.frames[s] == FrameStep(st.frames[s], |s.textures|, s.loop).0
            && r.0.lastFrameChange == now)
  {
    FrameDueWithoutDivision(now, st.lastFrameChange, sequences[st.playing].sampleRate);
  }

  /** Plays the current one of a set of named sequences. */
  class Animator {
    const sequences: map<string, Sequence>
    var lastFrameChange: int
    var finished: bool
    var currentAnimationPlaying: string

    /** `now` is the clock reading SDL_GetTicks gives the source at construction. */
    constructor (sequences: map<string, Sequence>, defaultSequence: string, now: int)
      ensures this.sequences == sequences
      ensures lastFrameChange == now && !finished && currentAnimationPlaying == defaultSequence
    {
      this.sequences := sequences;
      lastFrameChange := now;
      finished := false;
      currentAnimationPlaying := defaultSequence;
    }

    /** set_sequence: switch sequence and restart the frame timer. The frame index of the
        sequences and the finished flag are left as they are. */
    method SetSequence(name: string, now: int)
      modifies this`currentAnimationPlaying, this`lastFrameChange
      ensures currentAnimationPlaying == name && lastFrameChange == now
    {
      currentAnimationPlaying := name;
      lastFrameChange := now;
    }

    /** What of an Animator its update reads and writes. */
    ghost function State(): AnimatorState
      reads this, sequences.Values
    {
      AnimatorState(currentAnimationPlaying, lastFrameChange, finished, map t | t in sequences.Values :: t.currentFrame)
    }

    /** update took the animator from its old state to its new one, as AnimatorStep says. */
    twostate predicate Updated(now: int, new r: Outcome<Error>)
      reads this, sequences.Values
    {
      AnimatorStep(sequences, old(State()), now) == (State(), r)
    }

    /** update: one time-gated step of the current sequence, as Updated says. */
    method Update(now: int) returns (r: Outcome<Error>)
      modifies this`finished, this`lastFrameChange, sequences.Values`currentFrame
      ensures Updated(now, r)
    {
      if currentAnimationPlaying !in sequences {
        return Fail(MissingSequence(currentAnimationPlaying));
      }
      var s := sequences[currentAnimationPlaying];
      if s.sampleRate == 0 {
        return Fail(ZeroSampleRate);
      }
      ghost var st := State();
      if FrameDue(now, lastFrameChange, s.sampleRate) {
        finished := s.NextFrame();
        lastFrameChange := now;
        assert State().frames == st.frames[s := s.currentFrame] by {
          forall t | t in sequences.Values ensures State().frames[t] == st.frames[s := s.currentFrame][t] {
          }
        }
      }
      r := Pass;
    }

    /** The texture Animator.draw shows: that of the current sequence's current frame. */
    function CurrentTexture(): (r: Result<Texture, Error>)
      reads this`currentAnimationPlaying, sequences.Values`currentFrame
      ensures currentAnimationPlaying !in sequences ==> r == Err(MissingSequence(currentAnimationPlaying))
      ensures currentAnimationPlaying in sequences ==> r == sequences[currentAnimationPlaying].CurrentTexture()
    {
      if currentAnimationPlaying in sequences then sequences[currentAnimationPlaying].CurrentTexture()
      else Err(MissingSequence(currentAnimationPlaying))
    }
  }

  // ---------------------------------------------------------------------------------------------
  // KeyboardShooter

  /** The shooting component's own state: its cooldown and when it last fired. Its update and
      shoot act on the bullet pool and are in module Entities. */
  class KeyboardShooter {
    const cooldown: int
    var lastShot: int

    constructor (cooldown: int)
      ensures this.cooldown == cooldown && lastShot == 0
    {
      this.cooldown := cooldown;
      lastShot := 0;
    }

    predicate CooledDown(now: int)
      reads this`lastShot
    {
      now - lastShot >= cooldown
    }

    /** Record that a volley left at time `now`. */
    method RecordShot(now: int)
      modifies this`lastShot
      ensures lastShot == now
    {
      lastShot := now;
    }
  }
}
