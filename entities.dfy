/** Entities (entities.py) and the component behaviours that act on their container entity
    (components.py). Both live in one module because the source's two files import each other:
    an entity's update reaches KeyboardShooter.shoot, which updates a pooled bullet entity. */
module Entities {
  import opened Wrappers
  import opened Geometry
  import opened Components
  import Config

  const PlayerSpeed: real := 5.0
  const PlayerSize: int := 105
  /** Milliseconds between two volleys of the player. */
  const PlayerShotCooldown: int := 250
  const BulletSpeed: real := 10.0
  const BulletSize: real := 8.0
  const EnemySize: int := 105
  const EnemyRadius: real := 38.0
  const BulletPoolSize: nat := 30
  /** The value of Python's `math.pi`. */
  const Pi: real := 3.141592653589793
  /** The rotation a shot is given: 270 degrees, in radians. */
  const ShotRotation: real := 270.0 * (Pi / 180.0)

  /** What the source reads from outside the simulation during an update: the clock
      (SDL_GetTicks, in milliseconds), the global delta_time, the arrow and space keys, and the
      floating-point cosine and sine, which are left uninterpreted. */
  datatype Env = Env(now: int, deltaTime: real, left: bool, right: bool, space: bool,
                     cos: real -> real, sin: real -> real)

  /** Where BulletMover.update takes a coordinate: `speed * delta_time` further along the rotation. */
  function MovedX(x: real, speed: real, rotation: real, env: Env): real
  {
    x + speed * env.cos(rotation) * env.deltaTime
  }

  function MovedY(y: real, speed: real, rotation: real, env: Env): real
  {
    y + speed * env.sin(rotation) * env.deltaTime
  }

  /** One request to the renderer: draw `texture` centred at (x, y), rotated. */
  datatype DrawCall = DrawCall(texture: Texture, x: real, y: real, rotation: real)

  // ---------------------------------------------------------------------------------------------
  // Footprints used in frames

  ghost function PositionsOf(es: set<Entity>): set<Vec2>
    reads es`position
  {
    set e | e in es :: e.position
  }

  ghost function CirclesOf(es: set<Entity>): set<Circle>
    reads es`collisions
  {
    set e, c | e in es && c in e.collisions :: c
  }

  /** The Animators that VulnerableToBullets components hold: what a collision may change. */
  function TargetsIn(cs: seq<Component>): set<Animator>
  {
    set c | c in cs && c.VulnerableToBullets? :: c.animator
  }

  ghost function TargetsOf(es: set<Entity>): set<Animator>
    reads es`components
  {
    set e, a | e in es && a in TargetsIn(e.components) :: a
  }

  function AnimatorsIn(cs: seq<Component>): set<Animator>
  {
    set c | c in cs && c.AnimatorRef? :: c.animator
  }

  function SequencesIn(cs: seq<Component>): set<Sequence>
  {
    set a, s | a in AnimatorsIn(cs) && s in a.sequences.Values :: s
  }

  function ShootersIn(cs: seq<Component>): set<KeyboardShooter>
  {
    set c | c in cs && c.KeyboardShooterRef? :: c.shooter
  }

  /** 1 for an entity whose update can shoot (and so update pooled bullets), else 0. */
  function Rank(cs: seq<Component>): nat
  {
    if HasKind(cs, KeyboardShooterKind) then 1 else 0
  }

  /** The component list create_bullet gives a bullet. */
  predicate IsBulletShaped(cs: seq<Component>)
  {
    |cs| == 2 && cs[0].SpriteRenderer? && cs[1].BulletMover?
  }

  /** The component list create_enemy gives an enemy: an Animator, then a VulnerableToBullets on it. */
  predicate IsEnemyShaped(cs: seq<Component>)
  {
    |cs| == 2 && cs[0].AnimatorRef? && cs[1] == VulnerableToBullets(cs[0].animator)
  }

  /** The pool bullets an update of an entity with these components may change: all of them when
      it can shoot, none otherwise. */
  ghost function ShotBullets(world: World, cs: seq<Component>): set<Entity>
    reads world`pool
  {
    if HasKind(cs, KeyboardShooterKind) then world.pool else {}
  }

  ghost function ShotPositions(world: World, cs: seq<Component>): set<Vec2>
    reads world`positions
  {
    if HasKind(cs, KeyboardShooterKind) then world.positions else {}
  }

  ghost function ShotCircles(world: World, cs: seq<Component>): set<Circle>
    reads world`circles
  {
    if HasKind(cs, KeyboardShooterKind) then world.circles else {}
  }

  /** What a shot or an update can change of a pool bullet: its activity, rotation, position
      and the centre of its circle (a pool bullet has exactly one). */
  datatype BulletState = BulletState(
    active: bool, rotation: real, position: Vec2, x: real, y: real, collisions: seq<Circle>, center: Option<Vec2>)

  ghost function StateOf(b: Entity): BulletState
    reads b`active, b`rotation, b`position, b.position`x, b.position`y, b`collisions, b.collisions`center
  {
    BulletState(b.active, b.rotation, b.position, b.position.x, b.position.y, b.collisions,
                if |b.collisions| > 0 then Some(b.collisions[0].center) else None)
  }

  /** Pool bullet b is as it was. */
  twostate predicate Kept(b: Entity)
    reads b`active, b`rotation, b`position, b.position`x, b.position`y, b`collisions, b.collisions`center
  {
    StateOf(b) == old(StateOf(b))
  }

  // ---------------------------------------------------------------------------------------------
  // Drawing

  /** What one component's draw asks the renderer for, for a container at (x, y) with the given
      rotation: a SpriteRenderer its texture, an Animator its current frame; the others nothing. */
  function ComponentDraw(c: Component, x: real, y: real, rotation: real): (r: Result<seq<DrawCall>, Error>)
    reads AnimatorsIn([c]), SequencesIn([c])
  {
    match c
    case SpriteRenderer(sprite) => Ok([DrawCall(sprite.texture, x, y, rotation)])
    case AnimatorRef(a) =>
      assert c in [c];
      (match a.CurrentTexture()
       case Ok(t) => Ok([DrawCall(t, x, y, rotation)])
       case Err(e) => Err(e))
    case _ => Ok([])
  }

  predicate Draws(c: Component)
  {
    c.SpriteRenderer? || c.AnimatorRef?
  }

  function DrawingCount(cs: seq<Component>): nat
  {
    if cs == [] then 0 else DrawingCount(cs[..|cs| - 1]) + (if Draws(cs[|cs| - 1]) then 1 else 0)
  }

  /** Entity.draw: every component drawn in attachment order; the first failure (a missing
      sequence or frame) ends the call. When it succeeds there is one request per drawing
      component, each at the entity's position and rotation, and a SpriteRenderer's request is for
      its own texture. */
  function DrawAll(cs: seq<Component>, x: real, y: real, rotation: real): (r: Result<seq<DrawCall>, Error>)
    reads AnimatorsIn(cs), SequencesIn(cs)
    ensures r.Ok? ==> |r.value| == DrawingCount(cs)
    ensures r.Ok? ==> forall k :: 0 <= k < |r.value| ==>
      r.value[k].x == x && r.value[k].y == y && r.value[k].rotation == rotation
    ensures r.Ok? <==> forall i :: 0 <= i < |cs| ==> ComponentDraw(cs[i], x, y, rotation).Ok?
    decreases |cs|
  {
    if cs == [] then Ok([])
    else
      var init := cs[..|cs| - 1];
      assert AnimatorsIn(init) <= AnimatorsIn(cs) by {
        forall a | a in AnimatorsIn(init) ensures a in AnimatorsIn(cs) {
          var c :| c in init && c.AnimatorRef? && c.animator == a;
          assert c in cs;
        }
      }
      assert AnimatorsIn([cs[|cs| - 1]]) <= AnimatorsIn(cs);
      match DrawAll(init, x, y, rotation)
      case Err(e) => Err(e)
      case Ok(calls) =>
        match ComponentDraw(cs[|cs| - 1], x, y, rotation)
        case Err(e) => Err(e)
        case Ok(more) => Ok(calls + more)
  }

  /** Once one component fails to draw, the components after it make no difference. */
  lemma {:induction false} DrawFailureEndsDrawing(cs: seq<Component>, k: nat, x: real, y: real, rotation: real)
    requires k <= |cs| && DrawAll(cs[..k], x, y, rotation).Err?
    ensures DrawAll(cs, x, y, rotation) == DrawAll(cs[..k], x, y, rotation)
    decreases |cs| - k
  {
    if k < |cs| {
      var init := cs[..|cs| - 1];
      assert init[..k] == cs[..k];
      DrawFailureEndsDrawing(init, k, x, y, rotation);
    } else {
      assert cs[..k] == cs;
    }
  }

  // ---------------------------------------------------------------------------------------------
  // Entity

  /** A game object: transform, activity flag, tag, its components and its collision circles. */
  class Entity {
    var position: Vec2
    var rotation: real
    var active: bool
    var tag: string
    var components: seq<Component>
    var collisions: seq<Circle>

    constructor ()
      ensures fresh(position) && position.x == 0.0 && position.y == 0.0
      ensures rotation == 0.0 && !active && tag == "" && components == [] && collisions == []
    {
      position := new Vec2(0.0, 0.0);
      rotation := 0.0;
      active := false;
      tag := "";
      components := [];
      collisions := [];
    }

    /** An entity as the source assembles one: one component per class, each looked-up sibling
        attached before the component that holds it. */
    ghost predicate Valid()
      reads this`components
    {
      UniqueKinds(components) && SiblingsResolved(components)
    }

    /** add_component: raises if a component of the same class is attached, leaving the list as
        it was; otherwise appends. */
    method AddComponent(c: Component) returns (r: Outcome<Error>)
      modifies this`components
      ensures r.Fail? <==> HasKind(old(components), KindOf(c))
      ensures r.Fail? ==> r.error == DuplicateComponent(KindOf(c))
      ensures components == Attach(old(components), c)
    {
      for i := 0 to |components|
        invariant forall j :: 0 <= j < i ==> KindOf(components[j]) != KindOf(c)
      {
        if KindOf(components[i]) == KindOf(c) {
          return Fail(DuplicateComponent(KindOf(c)));
        }
      }
      components := components + [c];
      r := Pass;
    }

    /** get_component: the first attached component of the given class; raises if there is none. */
    method GetComponent(kind: Kind) returns (r: Result<Component, Error>)
      ensures r.Err? <==> !HasKind(components, kind)
      ensures r.Err? ==> r.error == MissingComponent(kind)
      ensures r.Ok? ==> KindOf(r.value) == kind
      ensures r.Ok? ==> exists i :: 0 <= i < |components| && components[i] == r.value &&
                          forall j :: 0 <= j < i ==> KindOf(components[j]) != kind
    {
      for i := 0 to |components|
        invariant forall j :: 0 <= j < i ==> KindOf(components[j]) != kind
      {
        if KindOf(components[i]) == kind {
          return Ok(components[i]);
        }
      }
      r := Err(MissingComponent(kind));
    }

    /** draw: the renderer requests of every component, in attachment order. Drawing changes
        nothing. */
    method Draw() returns (r: Result<seq<DrawCall>, Error>)
      ensures r == DrawAll(components, position.x, position.y, rotation)
    {
      var calls := [];
      for i := 0 to |components|
        invariant DrawAll(components[..i], position.x, position.y, rotation) == Ok(calls)
      {
        assert components[..i + 1][..i] == components[..i];
        assert components[..i + 1][i] == components[i];
        assert AnimatorsIn([components[i]]) <= AnimatorsIn(components[..i + 1]);
        var d := ComponentDraw(components[i], position.x, position.y, rotation);
        if d.Err? {
          DrawFailureEndsDrawing(components, i + 1, position.x, position.y, rotation);
          return Err(d.error);
        }
        calls := calls + d.value;
      }
      assert components[..|components|] == components;
      r := Ok(calls);
    }

    /** update: the update of every component, once each, in attachment order; the first failure
        ends the call. A bullet-shaped entity (SpriteRenderer, BulletMover, and a circle) moves as
        its BulletMover says and changes nothing else. An enemy-shaped entity (Animator, then
        VulnerableToBullets on it) updates its Animator and, unless that failed, then goes inactive
        when the Animator is now at the end of "destroy". */
    method Update(env: Env, world: World) returns (r: Outcome<Error>)
      requires world.Valid()
      modifies this`active, position`x, position`y, collisions`center
      modifies AnimatorsIn(components)`finished, AnimatorsIn(components)`lastFrameChange
      modifies SequencesIn(components)`currentFrame, ShootersIn(components)`lastShot
      modifies ShotBullets(world, components)`active, ShotBullets(world, components)`rotation
      modifies ShotPositions(world, components)`x, ShotPositions(world, components)`y
      modifies ShotCircles(world, components)`center
      decreases Rank(components), 8
      ensures world.Valid()
      ensures IsBulletShaped(components) && |collisions| > 0 ==>
        && r.Pass?
        && rotation == old(rotation)
        && position.x == MovedX(old(position.x), components[1].speed, rotation, env)
        && position.y == MovedY(old(position.y), components[1].speed, rotation, env)
        && active == (old(active) && Config.InBounds(position.x, position.y))
        && collisions[0].center == position
      ensures IsEnemyShaped(components) ==>
        var a := components[0].animator;
        && a.Updated(env.now, r)
        && active == (old(active) && !(r.Pass? && a.finished && a.currentAnimationPlaying == "destroy"))
        && position.x == old(position.x) && position.y == old(position.y)
        && forall k :: 0 <= k < |collisions| ==> collisions[k].center == old(collisions[k].center)
    {
      ghost var bullet := IsBulletShaped(components) && |collisions| > 0;
      ghost var enemy := IsEnemyShaped(components);
      if bullet || enemy {
        ShapeFrames(world, components);
      }
      var i := 0;
      while i < |components|
        invariant components == old(components) && collisions == old(collisions) && position == old(position)
        invariant 0 <= i <= |components|
        invariant world.Valid()
        invariant bullet && i < 2 ==>
          position.x == old(position.x) && position.y == old(position.y) &&
          active == old(active) && rotation == old(rotation)
        invariant bullet && i == 2 ==>
          && rotation == old(rotation)
          && position.x == MovedX(old(position.x), components[1].speed, rotation, env)
          && position.y == MovedY(old(position.y), components[1].speed, rotation, env)
          && active == (old(active) && Config.InBounds(position.x, position.y))
          && collisions[0].center == position
        invariant enemy ==> position.x == old(position.x) && position.y == old(position.y)
        invariant enemy ==> forall k :: 0 <= k < |collisions| ==> collisions[k].center == old(collisions[k].center)
        invariant enemy && i == 0 ==> components[0].animator.State() == old(components[0].animator.State()) && active == old(active)
        invariant enemy && i > 0 ==> components[0].animator.Updated(env.now, Pass)
        invariant enemy && i == 1 ==> active == old(active)
        invariant enemy && i == 2 ==>
          active == (old(active) && !(components[0].animator.finished && components[0].animator.currentAnimationPlaying == "destroy"))
        decreases |components| - i
      {
        var o := UpdateNth(i, env, world);
        if o.Fail? {
          return o;
        }
        i := i + 1;
      }
      r := Pass;
    }

    /** One turn of update's loop: the update of the i-th component, with what it does to a
        bullet-shaped and to an enemy-shaped entity. */
    method UpdateNth(i: nat, env: Env, world: World) returns (r: Outcome<Error>)
      requires i < |components| && world.Valid()
      modifies this`active, position`x, position`y, collisions`center
      modifies AnimatorsIn(components)`finished, AnimatorsIn(components)`lastFrameChange
      modifies SequencesIn(components)`currentFrame, ShootersIn(components)`lastShot
      modifies ShotBullets(world, components)`active, ShotBullets(world, components)`rotation
      modifies ShotPositions(world, components)`x, ShotPositions(world, components)`y
      modifies ShotCircles(world, components)`center
      decreases Rank(components), 7
      ensures world.Valid()
      ensures IsBulletShaped(components) && i == 0 ==>
        && r.Pass? && position.x == old(position.x) && position.y == old(position.y)
        && active == old(active) && rotation == old(rotation)
      ensures IsBulletShaped(components) && i == 1 ==>
        && rotation == old(rotation)
        && position.x == MovedX(old(position.x), components[1].speed, rotation, env)
        && position.y == MovedY(old(position.y), components[1].speed, rotation, env)
        && active == (old(active) && Config.InBounds(position.x, position.y))
        && (|collisions| > 0 ==> r.Pass? && collisions[0].center == position)
      ensures IsEnemyShaped(components) ==>
        && position.x == old(position.x) && position.y == old(position.y)
        && forall k :: 0 <= k < |collisions| ==> collisions[k].center == old(collisions[k].center)
      ensures IsEnemyShaped(components) && i == 0 ==>
        components[0].animator.Updated(env.now, r) && active == old(active)
      ensures IsEnemyShaped(components) && i == 1 ==>
        && r.Pass? && components[0].animator.State() == old(components[0].animator.State())
        && active == (old(active) && !(components[0].animator.finished && components[0].animator.currentAnimationPlaying == "destroy"))
    {
      r := UpdateComponent(components[i], env, world);
    }

    /** The update of one component of this entity: SpriteRenderer's does nothing, the others
        are defined below (Animator's in module Components). */
    method UpdateComponent(c: Component, env: Env, world: World) returns (r: Outcome<Error>)
      requires c in components && world.Valid()
      modifies this`active, position`x, position`y, collisions`center
      modifies AnimatorsIn(components)`finished, AnimatorsIn(components)`lastFrameChange
      modifies SequencesIn(components)`currentFrame, ShootersIn(components)`lastShot
      modifies ShotBullets(world, components)`active, ShotBullets(world, components)`rotation
      modifies ShotPositions(world, components)`x, ShotPositions(world, components)`y
      modifies ShotCircles(world, components)`center
      decreases Rank(components), 6
      ensures world.Valid()
      ensures c.SpriteRenderer? ==>
        && r.Pass? && unchanged(this, position) && unchanged(collisions)
        && unchanged(AnimatorsIn(components), SequencesIn(components), ShootersIn(components))
        && PoolStates(world) == old(PoolStates(world))
      ensures c.AnimatorRef? ==>
        && c.animator.Updated(env.now, r) && unchanged(this, position) && unchanged(collisions)
        && unchanged(ShootersIn(components)) && PoolStates(world) == old(PoolStates(world))
      ensures c.VulnerableToBullets? ==>
        && r.Pass? && unchanged(position) && unchanged(collisions)
        && unchanged(AnimatorsIn(components), SequencesIn(components), ShootersIn(components))
        && PoolStates(world) == old(PoolStates(world))
        && c.animator.State() == old(c.animator.State())
        && active == (old(active) && !(c.animator.finished && c.animator.currentAnimationPlaying == "destroy"))
      ensures c.BulletMover? ==>
        && unchanged(AnimatorsIn(components), SequencesIn(components), ShootersIn(components))
        && rotation == old(rotation)
        && position.x == MovedX(old(position.x), c.speed, rotation, env)
        && position.y == MovedY(old(position.y), c.speed, rotation, env)
        && active == (old(active) && Config.InBounds(position.x, position.y))
      ensures c.BulletMover? && |collisions| == 0 ==> r == Fail(NoCollisionCircle)
      ensures c.BulletMover? && |collisions| > 0 ==> r.Pass? && collisions[0].center == position
      ensures c.KeyboardMover? ==>
        && r.Pass? && unchanged(this) && unchanged(collisions) && position.y == old(position.y)
        && position.x == KeyboardStep(old(position.x), c.sprite.width, c.speed * env.deltaTime, env.left, env.right)
        && unchanged(AnimatorsIn(components), SequencesIn(components), ShootersIn(components))
        && (old(NotABulletPosition(world, position)) ==> PoolStates(world) == old(PoolStates(world)))
      ensures c.KeyboardShooterRef? ==>
        && r.Pass? && active == old(active)
        && (old(NotABulletPosition(world, position)) ==> position.x == old(position.x) && position.y == old(position.y))
        && if env.space && old(c.shooter.CooledDown(env.now)) then
             && c.shooter.lastShot == env.now
             && (old(NotABulletPosition(world, position)) ==>
                   PoolStates(world) == VolleyStates(old(PoolStates(world)), old(position.x), old(position.y), env))
           else c.shooter.lastShot == old(c.shooter.lastShot) && PoolStates(world) == old(PoolStates(world))
    {
      r := Pass;
      match c {
      case SpriteRenderer(_) =>
      case AnimatorRef(a) =>
        assert a in AnimatorsIn(components);
        assert a.sequences.Values <= SequencesIn(components);
        r := UpdateAnimatorRef(this, a, env.now, world);
      case VulnerableToBullets(a) =>
        UpdateVulnerable(this, a, world);
      case BulletMover(speed) =>
        r := UpdateBulletMover(this, speed, env);
        StillValid(world);
      case KeyboardMover(speed, sprite) =>
        UpdateKeyboardMover(this, speed, sprite, env, world);
      case KeyboardShooterRef(s) =>
        assert HasKind(components, KeyboardShooterKind) by {
          var k :| 0 <= k < |components| && components[k] == c;
          assert KindOf(components[k]) == KeyboardShooterKind;
        }
        assert s in ShootersIn(components);
        KindNotPooled(world, this, KeyboardShooterKind);
        ghost var x, y, leftX, leftY := UpdateKeyboardShooter(this, s, env, world);
      }
    }

    /** collision: the collision reaction of every component. A BulletMover deactivates its entity
        on any hit; a VulnerableToBullets switches its Animator to "destroy" when the other entity
        is tagged "bullet"; nothing else reacts. */
    method Collision(other: Entity, now: int)
      modifies this`active, TargetsIn(components)`currentAnimationPlaying, TargetsIn(components)`lastFrameChange
      ensures active == (old(active) && !HasKind(components, BulletMoverKind))
      ensures other.tag == "bullet" ==>
        forall a :: a in TargetsIn(components) ==> a.currentAnimationPlaying == "destroy" && a.lastFrameChange == now
      ensures other.tag != "bullet" ==> unchanged(TargetsIn(components))
    {
      for i := 0 to |components|
        invariant active == (old(active) && !HasKind(components[..i], BulletMoverKind))
        invariant other.tag == "bullet" ==>
          forall a :: a in TargetsIn(components[..i]) ==> a.currentAnimationPlaying == "destroy" && a.lastFrameChange == now
        invariant other.tag != "bullet" ==> unchanged(TargetsIn(components))
      {
        assert components[..i + 1] == components[..i] + [components[i]];
        match components[i] {
        case VulnerableToBullets(a) =>
          assert components[i] in components;
          CollideVulnerable(a, other, now);
        case BulletMover(_) =>
          CollideBulletMover(this);
        case _ =>
        }
      }
      assert components[..|components|] == components;
    }
  }

  // ---------------------------------------------------------------------------------------------
  // Component behaviours that act on their container

  /** An Animator's update seen from its entity: the Animator takes its step and nothing of the
      entity, its shooters or the pool changes. */
  method UpdateAnimatorRef(container: Entity, a: Animator, now: int, world: World) returns (r: Outcome<Error>)
    requires world.Valid()
    modifies a`finished, a`lastFrameChange, a.sequences.Values`currentFrame
    ensures a.Updated(now, r)
    ensures unchanged(container, container.position) && unchanged(container.collisions)
    ensures unchanged(ShootersIn(container.components))
    ensures world.Valid() && PoolStates(world) == old(PoolStates(world))
  {
    r := a.Update(now);
    PoolKept(world);
  }

  /** VulnerableToBullets.update: deactivate the container once its Animator has finished the
      "destroy" sequence; otherwise leave it as it is. */
  method UpdateVulnerable(container: Entity, animator: Animator, world: World)
    requires world.Valid() && VulnerableToBullets(animator) in container.components
    modifies container`active
    ensures container.active == (old(container.active) &&
      !(animator.finished && animator.currentAnimationPlaying == "destroy"))
    ensures world.Valid() && PoolStates(world) == old(PoolStates(world))
    ensures unchanged(container.position) && unchanged(container.collisions)
    ensures unchanged(AnimatorsIn(container.components), SequencesIn(container.components), ShootersIn(container.components))
    ensures animator.State() == old(animator.State())
  {
    assert HasKind(container.components, VulnerableToBulletsKind) by {
      var k :| 0 <= k < |container.components| && container.components[k] == VulnerableToBullets(animator);
      assert KindOf(container.components[k]) == VulnerableToBulletsKind;
    }
    KindNotPooled(world, container, VulnerableToBulletsKind);
    if animator.finished && animator.currentAnimationPlaying == "destroy" {
      container.active := false;
    }
    PoolKept(world);
  }

  /** VulnerableToBullets.collision: a hit by an entity tagged "bullet" starts the "destroy"
      sequence; any other hit changes nothing. */
  method CollideVulnerable(animator: Animator, other: Entity, now: int)
    modifies animator`currentAnimationPlaying, animator`lastFrameChange
    ensures other.tag == "bullet" ==> animator.currentAnimationPlaying == "destroy" && animator.lastFrameChange == now
    ensures other.tag != "bullet" ==> unchanged(animator)
  {
    if other.tag == "bullet" {
      animator.SetSequence("destroy", now);
    }
  }

  /** BulletMover.update: move along the rotation by speed * delta_time, deactivate when the new
      position is outside the play field (its edges are inside), and put the first circle's centre
      at the position; with no circle the last step raises IndexError. */
  method UpdateBulletMover(container: Entity, speed: real, env: Env) returns (r: Outcome<Error>)
    modifies container`active, container.position`x, container.position`y, container.collisions`center
    ensures container.rotation == old(container.rotation)
    ensures unchanged(AnimatorsIn(container.components), SequencesIn(container.components), ShootersIn(container.components))
    ensures container.position.x == MovedX(old(container.position.x), speed, container.rotation, env)
    ensures container.position.y == MovedY(old(container.position.y), speed, container.rotation, env)
    ensures container.active == (old(container.active) &&
      Config.InBounds(container.position.x, container.position.y))
    ensures |container.collisions| == 0 ==> r == Fail(NoCollisionCircle)
    ensures |container.collisions| > 0 ==> r == Pass && container.collisions[0].center == container.position
    ensures forall k :: 1 <= k < |container.collisions| && container.collisions[k] != container.collisions[0] ==>
      container.collisions[k].center == old(container.collisions[k].center)
  {
    var pos := container.position;
    pos.x := MovedX(pos.x, speed, container.rotation, env);
    pos.y := MovedY(pos.y, speed, container.rotation, env);
    if pos.x > Config.ScreenWidth as real || pos.x < 0.0 || pos.y > Config.ScreenHeight as real || pos.y < 0.0 {
      container.active := false;
    }
    if |container.collisions| == 0 {
      return Fail(NoCollisionCircle);
    }
    container.collisions[0].center := container.position;
    r := Pass;
  }

  /** BulletMover.collision: a bullet is used up by any hit. */
  method CollideBulletMover(container: Entity)
    modifies container`active
    ensures !container.active
  {
    container.active := false;
  }

  /** KeyboardMover.update: the left key wins over the right; each moves horizontally by
      speed * delta_time, but only while the sprite's near half-width is still inside the field
      before the move. The vertical position never changes. */
  method UpdateKeyboardMover(container: Entity, speed: real, sprite: Sprite, env: Env, world: World)
    requires world.Valid()
    modifies container.position`x
    ensures container.position.x == KeyboardStep(old(container.position.x), sprite.width, speed * env.deltaTime, env.left, env.right)
    ensures container.position.y == old(container.position.y)
    ensures unchanged(container) && unchanged(container.collisions)
    ensures unchanged(AnimatorsIn(container.components), SequencesIn(container.components), ShootersIn(container.components))
    ensures world.Valid()
    ensures old(NotABulletPosition(world, container.position)) ==> PoolStates(world) == old(PoolStates(world))
  {
    ghost var outside := NotABulletPosition(world, container.position);
    if outside {
      NotAPoolPosition(world, container.position);
    }
    MoveByKeys(container, speed, sprite, env);
    if outside {
      PoolKept(world);
    } else {
      StillValid(world);
    }
  }

  /** The move itself, on the position object alone. */
  method MoveByKeys(container: Entity, speed: real, sprite: Sprite, env: Env)
    modifies container.position`x
    ensures container.position.x == KeyboardStep(old(container.position.x), sprite.width, speed * env.deltaTime, env.left, env.right)
  {
    var con := container;
    if env.left {
      if con.position.x - sprite.width / 2.0 > 0.0 {
        con.position.x := con.position.x - speed * env.deltaTime;
      }
    } else if env.right {
      if con.position.x + sprite.width / 2.0 < Config.ScreenWidth as real {
        con.position.x := con.position.x + speed * env.deltaTime;
      }
    }
  }

  /** The horizontal position after a KeyboardMover step of size `step`. */
  function KeyboardStep(x: real, width: real, step: real, left: bool, right: bool): real
  {
    if left then (if x - width / 2.0 > 0.0 then x - step else x)
    else if right then (if x + width / 2.0 < Config.ScreenWidth as real then x + step else x)
    else x
  }

  /** The left key has priority: with it held, the right key makes no difference. */
  lemma LeftKeyWins(x: real, width: real, step: real)
    ensures KeyboardStep(x, width, step, true, true) == KeyboardStep(x, width, step, true, false)
    ensures KeyboardStep(x, width, step, true, false) <= x || step < 0.0
  {
  }

  /** What the guard does keep: a sprite that sticks out of the field by less than one step never
      gets further out. (It can get that far, because the guard compares before moving.) */
  predicate WithinOneStep(x: real, width: real, step: real)
  {
    x - width / 2.0 > -step && x + width / 2.0 < Config.ScreenWidth as real + step
  }

  lemma KeyboardStepStaysWithinOneStep(x: real, width: real, step: real, left: bool, right: bool)
    requires step >= 0.0 && width >= 0.0
    requires WithinOneStep(x, width, step)
    ensures WithinOneStep(KeyboardStep(x, width, step, left, right), width, step)
  {
  }

  /** A player against the left edge moves out of the field by part of a step. */
  lemma KeyboardStepCanCrossEdge()
    ensures var x := KeyboardStep(53.0, 105.0, 5.0, true, false); x - 105.0 / 2.0 < 0.0
  {
  }

  /** KeyboardShooter.update: with space held and the cooldown over, shoot from the right turret
      (25 right of and 20 above the container's position), then from the left one (25 left of
      it), and restart the cooldown, even when the pool had no bullet to give. Otherwise nothing
      changes. The left shot reads the position afresh: (leftX, leftY) is where it was fired from,
      which is where the volley started unless the right shot moved that position object. */
  method UpdateKeyboardShooter(container: Entity, shooter: KeyboardShooter, env: Env, world: World)
    returns (ghost x: real, ghost y: real, ghost leftX: real, ghost leftY: real)
    requires world.Valid()
    modifies shooter`lastShot
    modifies world.pool`active, world.pool`rotation, world.positions`x, world.positions`y, world.circles`center
    decreases 1, 5
    ensures world.Valid()
    ensures x == old(container.position.x) && y == old(container.position.y)
    ensures old(NotABulletPosition(world, container.position)) ==>
      container.position.x == x && container.position.y == y
    ensures !(env.space && old(shooter.CooledDown(env.now))) ==>
      shooter.lastShot == old(shooter.lastShot) && PoolStates(world) == old(PoolStates(world))
    ensures env.space && old(shooter.CooledDown(env.now)) ==>
      && shooter.lastShot == env.now
      && PoolStates(world) == ShotStates(ShotStates(old(PoolStates(world)), x + 25.0, y - 20.0, env), leftX, leftY, env)
      && (old(NotABulletPosition(world, container.position)) ==> leftX == x - 25.0 && leftY == y - 20.0)
      && (old(NotABulletPosition(world, container.position)) ==> PoolStates(world) == VolleyStates(old(PoolStates(world)), x, y, env))
  {
    var pos := container.position;
    var px, py := pos.x, pos.y;
    x, y, leftX, leftY := px, py, 0.0, 0.0;
    if env.space {
      if env.now - shooter.lastShot >= shooter.cooldown {
        leftX, leftY := FireVolley(px, py, pos, shooter, env, world);
      }
    }
  }

  /** The firing half of KeyboardShooter.update, from a shooter whose position object is `pos`:
      restart the cooldown, then the volley. A position object that is no pool bullet's does not
      move. */
  method FireVolley(x: real, y: real, pos: Vec2, shooter: KeyboardShooter, env: Env, world: World)
    returns (ghost leftX: real, ghost leftY: real)
    requires world.Valid() && x == pos.x && y == pos.y
    modifies shooter`lastShot
    modifies world.pool`active, world.pool`rotation, world.positions`x, world.positions`y, world.circles`center
    decreases 1, 4
    ensures world.Valid()
    ensures shooter.lastShot == env.now
    ensures PoolStates(world) == ShotStates(ShotStates(old(PoolStates(world)), x + 25.0, y - 20.0, env), leftX, leftY, env)
    ensures old(NotABulletPosition(world, pos)) ==>
      && leftX == x - 25.0 && leftY == y - 20.0
      && PoolStates(world) == VolleyStates(old(PoolStates(world)), x, y, env)
      && pos.x == x && pos.y == y
  {
    ghost var outside := NotABulletPosition(world, pos);
    if outside {
      NotAPoolPosition(world, pos);
    }
    ghost var s0 := PoolStates(world);
    shooter.RecordShot(env.now);
    assert PoolStates(world) == s0;
    leftX, leftY := Volley(x, y, pos, env, world);
    assert outside ==> pos.x == x && pos.y == y;
    if leftX == x - 25.0 && leftY == y - 20.0 {
      VolleyOfFixedShooter(s0, x, y, leftX, leftY, env);
    }
  }

  /** The two shots of one volley from a shooter whose position object is `pos`, standing at
      (x, y) when the volley starts: right gun first, then the left gun from `pos` as it is then. */
  method Volley(x: real, y: real, pos: Vec2, env: Env, world: World) returns (ghost leftX: real, ghost leftY: real)
    requires world.Valid() && x == pos.x && y == pos.y
    modifies world.pool`active, world.pool`rotation, world.positions`x, world.positions`y, world.circles`center
    decreases 1, 3
    ensures world.Valid()
    ensures PoolStates(world) == ShotStates(ShotStates(old(PoolStates(world)), x + 25.0, y - 20.0, env), leftX, leftY, env)
    ensures old(NotABulletPosition(world, pos)) ==> leftX == x - 25.0 && leftY == y - 20.0
  {
    Shoot(x + 25.0, y - 20.0, env, world);
    var lx, ly := pos.x - 25.0, pos.y - 20.0;
    leftX, leftY := lx, ly;
    Shoot(lx, ly, env, world);
  }

  /** A volley whose left shot leaves from 25 left of and 20 above where the shooter stood. */
  lemma VolleyOfFixedShooter(s: seq<BulletState>, x: real, y: real, leftX: real, leftY: real, env: Env)
    requires leftX == x - 25.0 && leftY == y - 20.0
    ensures ShotStates(ShotStates(s, x + 25.0, y - 20.0, env), leftX, leftY, env) == VolleyStates(s, x, y, env)
  {
  }

  /** No pool bullet has `pos` as its position object. */
  ghost predicate NotABulletPosition(world: World, pos: Vec2)
    reads world`bulletPool, world.PoolSet()`position
  {
    forall b :: b in world.bulletPool ==> b.position != pos
  }

  /** KeyboardShooter.shoot: take bullet_from_pool's answer, if any, and launch it from (x, y).
      On the pool's states this is ShotStates. */
  method Shoot(x: real, y: real, env: Env, world: World)
    requires world.Valid()
    modifies world.pool`active, world.pool`rotation, world.positions`x, world.positions`y, world.circles`center
    decreases 1, 2
    ensures world.Valid()
    ensures PoolStates(world) == ShotStates(old(PoolStates(world)), x, y, env)
  {
    var found := world.BulletFromPool();
    FirstInactiveInStates(world);
    if found.Some? {
      ghost var s0, k := PoolStates(world), FirstInactiveIndex(PoolStates(world)).value;
      PoolStatesAt(world);
      Launch(found.value, x, y, env, world, s0, k);
    }
  }

  /** The body of shoot once a bullet was found: activate it, place it, turn it and update it.
      The bullet ends in LaunchState; no other pool bullet changes, since no two share a position
      or a circle. The pool's states are then the old ones with bullet k's replaced. */
  method Launch(bullet: Entity, x: real, y: real, env: Env, world: World, ghost s0: seq<BulletState>, ghost k: nat)
    requires world.Valid() && bullet in world.bulletPool
    requires s0 == PoolStates(world) && k < |s0| && k < |world.bulletPool| && world.bulletPool[k] == bullet
    modifies bullet`active, bullet`rotation, bullet.position`x, bullet.position`y, bullet.collisions`center
    decreases 1, 1
    ensures world.Valid()
    ensures StateOf(bullet) == LaunchState(old(StateOf(bullet)), x, y, env)
    ensures forall b :: b in world.bulletPool && b != bullet ==> Kept(b)
    ensures PoolStates(world) == s0[k := StateOf(bullet)]
  {
    PoolStatesAt(world);
    PlaceAndUpdate(bullet, x, y, env, world);
    KeptStates(world, s0, k);
  }

  /** Launch without the pool-wide view: the found bullet's own steps, and every other pool
      bullet kept. */
  method PlaceAndUpdate(bullet: Entity, x: real, y: real, env: Env, world: World)
    requires world.Valid() && bullet in world.bulletPool
    modifies bullet`active, bullet`rotation, bullet.position`x, bullet.position`y, bullet.collisions`center
    decreases 1, 0
    ensures world.Valid()
    ensures StateOf(bullet) == LaunchState(old(StateOf(bullet)), x, y, env)
    ensures forall b :: b in world.bulletPool && b != bullet ==> Kept(b)
  {
    PooledBulletFrames(world, bullet);
    PoolBulletsApart(world, bullet);
    Place(bullet, x, y, world);
    assert !IsEnemyShaped(bullet.components);
    var _ := bullet.Update(env, world);
    forall b | b in world.bulletPool && b != bullet ensures Kept(b) {
      assert b.position != bullet.position;
      if |b.collisions| > 0 {
        assert b.collisions[0] in b.collisions;
        assert b.collisions[0] !in bullet.collisions;
      }
    }
  }

  /** When only pool bullet k may have changed, the pool's states are the old ones with k's
      replaced. */
  twostate lemma KeptStates(world: World, new s0: seq<BulletState>, new k: nat)
    requires world.Valid() && unchanged(world)
    requires |s0| == |world.bulletPool| && k < |s0|
    requires forall i :: 0 <= i < |s0| ==> s0[i] == old(StateOf(world.bulletPool[i]))
    requires forall b :: b in world.bulletPool && b != world.bulletPool[k] ==> Kept(b)
    ensures PoolStates(world) == s0[k := StateOf(world.bulletPool[k])]
  {
    forall i | 0 <= i < |s0| && i != k ensures s0[i] == StateOf(world.bulletPool[i]) {
      assert world.slot[world.bulletPool[i]] != world.slot[world.bulletPool[k]];
      assert world.bulletPool[i] in world.bulletPool;
    }
    StatesAfterLaunch(world, s0, k);
  }

  /** The assignments of shoot before the bullet's update. */
  method Place(bullet: Entity, x: real, y: real, world: World)
    requires world.Valid() && bullet in world.bulletPool
    modifies bullet`active, bullet`rotation, bullet.position`x, bullet.position`y
    ensures world.Valid()
    ensures bullet.active && bullet.rotation == ShotRotation && bullet.position.x == x && bullet.position.y == y
  {
    bullet.active := true;
    bullet.position.x := x;
    bullet.position.y := y;
    bullet.rotation := ShotRotation;
    StillValid(world);
  }

  /** An entity with a component other than SpriteRenderer and BulletMover (one that can shoot,
      move by keyboard, animate or be destroyed) is not a pool bullet. */
  lemma KindNotPooled(world: World, e: Entity, k: Kind)
    requires world.Valid() && HasKind(e.components, k) && k != SpriteRendererKind && k != BulletMoverKind
    ensures e !in world.pool
  {
    if e in world.pool {
      assert IsPooledBullet(e);
      var j :| 0 <= j < |e.components| && KindOf(e.components[j]) == k;
      assert false;
    }
  }

  /** A change that touches no pool bullet, no pool position and no pool circle keeps the pool
      consistent and its states as they were. */
  twostate lemma PoolKept(world: World)
    requires old(world.Valid()) && unchanged(world) && unchanged(world.pool, world.positions, world.circles)
    ensures world.Valid() && PoolStates(world) == old(PoolStates(world))
  {
  }

  /** A position object that is no pool bullet's is none of the pool's position objects. */
  lemma NotAPoolPosition(world: World, p: Vec2)
    requires world.Valid() && NotABulletPosition(world, p)
    ensures p !in world.positions
  {
  }

  /** The pool's consistency survives any change that leaves the world and the pooled bullets'
      components, circles, tags and position objects alone. */
  twostate lemma StillValid(world: World)
    requires old(world.Valid()) && unchanged(world)
    requires forall b :: b in old(world.pool) ==> unchanged(b`components, b`collisions, b`tag, b`position)
    ensures world.Valid()
  {
  }

  /** Two pool bullets share no position and no circle. */
  lemma PoolBulletsApart(world: World, a: Entity)
    requires world.Valid() && a in world.bulletPool
    ensures forall b :: b in world.bulletPool && b != a ==>
      b.position != a.position && forall c :: c in b.collisions ==> c !in a.collisions
  {
    forall b | b in world.bulletPool && b != a
      ensures b.position != a.position && forall c :: c in b.collisions ==> c !in a.collisions
    {
      assert world.positionOwner[b.position] == b;
      forall c | c in b.collisions ensures c !in a.collisions {
        assert world.circleOwner[c] == b;
      }
    }
  }

  /** What a pooled bullet's update may touch lies inside the pool's frame. */
  lemma PooledBulletFrames(world: World, b: Entity)
    requires world.Valid() && b in world.bulletPool
    ensures IsPooledBullet(b) && Rank(b.components) == 0
    ensures b in world.pool && b.position in world.positions && forall c :: c in b.collisions ==> c in world.circles
    ensures AnimatorsIn(b.components) == {} && SequencesIn(b.components) == {} && ShootersIn(b.components) == {}
    ensures !HasKind(b.components, KeyboardShooterKind)
    ensures ShotBullets(world, b.components) == {} && ShotPositions(world, b.components) == {}
    ensures ShotCircles(world, b.components) == {}
  {
    assert !HasKind(b.components, KeyboardShooterKind) by {
      assert KindOf(b.components[0]) == SpriteRendererKind && KindOf(b.components[1]) == BulletMoverKind;
    }
  }

  /** Neither a bullet nor an enemy can shoot; a bullet has no Animator either. */
  lemma ShapeFrames(world: World, cs: seq<Component>)
    requires IsBulletShaped(cs) || IsEnemyShaped(cs)
    ensures !HasKind(cs, KeyboardShooterKind) && ShootersIn(cs) == {}
    ensures ShotBullets(world, cs) == {} && ShotPositions(world, cs) == {} && ShotCircles(world, cs) == {}
    ensures IsBulletShaped(cs) ==> AnimatorsIn(cs) == {} && SequencesIn(cs) == {}
  {
    assert KindOf(cs[0]) != KeyboardShooterKind && KindOf(cs[1]) != KeyboardShooterKind;
  }

  /** Establishes the component behind KeyboardMover's constructor, which looks up the sibling
      SpriteRenderer and raises when there is none. */
  method NewKeyboardMover(container: Entity, speed: real) returns (r: Result<Component, Error>)
    ensures r.Err? <==> !HasKind(container.components, SpriteRendererKind)
    ensures r.Err? ==> r.error == MissingComponent(SpriteRendererKind)
    ensures r.Ok? ==> r.value.KeyboardMover? && r.value.speed == speed
    ensures r.Ok? ==> exists i :: 0 <= i < |container.components| && container.components[i] == SpriteRenderer(r.value.sprite) &&
                               (forall j :: 0 <= j < i ==> KindOf(container.components[j]) != SpriteRendererKind)
  {
    var found := container.GetComponent(SpriteRendererKind);
    if found.Err? {
      return Err(found.error);
    }
    r := Ok(KeyboardMover(speed, found.value.sprite));
  }

  /** VulnerableToBullets' constructor: looks up the sibling Animator; raises when there is none. */
  method NewVulnerableToBullets(container: Entity) returns (r: Result<Component, Error>)
    ensures r.Err? <==> !HasKind(container.components, AnimatorKind)
    ensures r.Err? ==> r.error == MissingComponent(AnimatorKind)
    ensures r.Ok? ==> r.value.VulnerableToBullets?
    ensures r.Ok? ==> exists i :: 0 <= i < |container.components| && container.components[i] == AnimatorRef(r.value.animator) &&
                               (forall j :: 0 <= j < i ==> KindOf(container.components[j]) != AnimatorKind)
  {
    var found := container.GetComponent(AnimatorKind);
    if found.Err? {
      return Err(found.error);
    }
    r := Ok(VulnerableToBullets(found.value.animator));
  }

  // ---------------------------------------------------------------------------------------------
  // The bullet pool as a value

  /** The index bullet_from_pool answers on the pool's states: the first inactive bullet's. */
  function FirstInactiveIndex(s: seq<BulletState>): (r: Option<nat>)
    ensures r.None? <==> forall i :: 0 <= i < |s| ==> s[i].active
    ensures r.Some? ==> r.value < |s| && !s[r.value].active && forall j :: 0 <= j < r.value ==> s[j].active
    decreases |s|
  {
    if s == [] then None
    else if !s[0].active then Some(0)
    else
      var r := FirstInactiveIndex(s[1..]);
      assert forall i :: 1 <= i < |s| ==> s[i] == s[1..][i - 1];
      if r.None? then None else Some(r.value + 1)
  }

  /** The state shoot leaves a bullet in: active, placed at (x, y) and turned up the screen, then
      moved once by its BulletMover, which deactivates it off the field and centres its circle on
      its position. */
  function LaunchState(b: BulletState, x: real, y: real, env: Env): BulletState
  {
    var nx, ny := MovedX(x, BulletSpeed, ShotRotation, env), MovedY(y, BulletSpeed, ShotRotation, env);
    b.(active := Config.InBounds(nx, ny), rotation := ShotRotation, x := nx, y := ny,
       center := if |b.collisions| > 0 then Some(b.position) else b.center)
  }

  /** One shoot from (x, y) on the pool's states: the first inactive bullet is launched; with
      none, nothing changes. */
  function ShotStates(s: seq<BulletState>, x: real, y: real, env: Env): seq<BulletState>
  {
    match FirstInactiveIndex(s)
    case None => s
    case Some(k) => s[k := LaunchState(s[k], x, y, env)]
  }

  /** Both shots of a volley from a shooter at (x, y) whose position no shot moves. */
  function VolleyStates(s: seq<BulletState>, x: real, y: real, env: Env): seq<BulletState>
  {
    ShotStates(ShotStates(s, x + 25.0, y - 20.0, env), x - 25.0, y - 20.0, env)
  }

  /** Whether the first shot of a volley from (x, y) keeps its bullet on the field. */
  predicate FirstShotStays(x: real, y: real, env: Env)
  {
    Config.InBounds(MovedX(x + 25.0, BulletSpeed, ShotRotation, env), MovedY(y - 20.0, BulletSpeed, ShotRotation, env))
  }

  /** A shot changes exactly one bullet, the first inactive one, when there is one, and nothing
      when every bullet is active. The bullet it takes points up the screen, has moved once from
      (x, y), is active exactly when still on the field, and keeps its position object and
      circles, with its circle centred on it. */
  lemma ShotLaunchesFirstInactive(s: seq<BulletState>, x: real, y: real, env: Env)
    ensures |ShotStates(s, x, y, env)| == |s|
    ensures FirstInactiveIndex(s).None? ==> ShotStates(s, x, y, env) == s
    ensures FirstInactiveIndex(s).Some? ==>
      var k, r := FirstInactiveIndex(s).value, ShotStates(s, x, y, env);
      && (forall i :: 0 <= i < |s| && i != k ==> r[i] == s[i])
      && r[k].rotation == ShotRotation
      && r[k].x == MovedX(x, BulletSpeed, ShotRotation, env) && r[k].y == MovedY(y, BulletSpeed, ShotRotation, env)
      && r[k].active == Config.InBounds(r[k].x, r[k].y)
      && r[k].position == s[k].position && r[k].collisions == s[k].collisions
      && (|s[k].collisions| > 0 ==> r[k].center == Some(r[k].position))
  {
  }

  /** The second shot of a volley from (x, y) takes nothing when the first took nothing; the
      first shot's bullet again when that bullet left the field at once; and otherwise the next
      inactive bullet after it, or nothing when there is none. */
  lemma VolleySecondShot(s: seq<BulletState>, x: real, y: real, env: Env)
    ensures var k1, k2 := FirstInactiveIndex(s), FirstInactiveIndex(ShotStates(s, x + 25.0, y - 20.0, env));
      && (k1.None? ==> k2.None?)
      && (k1.Some? && !FirstShotStays(x, y, env) ==> k2 == k1)
      && (k1.Some? && FirstShotStays(x, y, env) ==>
            && (k2.None? <==> forall i :: k1.value < i < |s| ==> s[i].active)
            && (k2.Some? ==> k1.value < k2.value && !s[k2.value].active &&
                             forall j :: k1.value < j < k2.value ==> s[j].active))
  {
    var k1 := FirstInactiveIndex(s);
    if k1.Some? {
      var s1 := ShotStates(s, x + 25.0, y - 20.0, env);
      ShotLaunchesFirstInactive(s, x + 25.0, y - 20.0, env);
      assert s1[k1.value].active == FirstShotStays(x, y, env);
    }
  }

  /** The two shots take different bullets exactly when the first bullet stays on the field. */
  lemma VolleyTakesTwoIffFirstStays(s: seq<BulletState>, x: real, y: real, env: Env)
    requires FirstInactiveIndex(s).Some? && FirstInactiveIndex(ShotStates(s, x + 25.0, y - 20.0, env)).Some?
    ensures FirstInactiveIndex(s) != FirstInactiveIndex(ShotStates(s, x + 25.0, y - 20.0, env)) <==> FirstShotStays(x, y, env)
  {
    VolleySecondShot(s, x, y, env);
  }

  /** The number of active bullets. */
  function ActiveCount(s: seq<BulletState>): nat
  {
    if s == [] then 0 else ActiveCount(s[..|s| - 1]) + (if s[|s| - 1].active then 1 else 0)
  }

  lemma {:induction false} ActiveCountUpdate(s: seq<BulletState>, k: nat, b: BulletState)
    requires k < |s|
    ensures ActiveCount(s[k := b]) + (if s[k].active then 1 else 0) == ActiveCount(s) + (if b.active then 1 else 0)
    decreases |s|
  {
    var t := s[k := b];
    if k < |s| - 1 {
      assert t[..|t| - 1] == s[..|s| - 1][k := b];
      ActiveCountUpdate(s[..|s| - 1], k, b);
    } else {
      assert t[..|t| - 1] == s[..|s| - 1];
    }
  }

  /** A shot puts one more bullet in play exactly when there was an inactive bullet and the
      launched one stays on the field; otherwise as many bullets are active as before. */
  lemma ShotActivatesAtMostOne(s: seq<BulletState>, x: real, y: real, env: Env)
    ensures ActiveCount(ShotStates(s, x, y, env)) ==
      ActiveCount(s) + (if FirstInactiveIndex(s).Some? &&
                           Config.InBounds(MovedX(x, BulletSpeed, ShotRotation, env), MovedY(y, BulletSpeed, ShotRotation, env))
                        then 1 else 0)
  {
    if FirstInactiveIndex(s).Some? {
      var k := FirstInactiveIndex(s).value;
      ActiveCountUpdate(s, k, LaunchState(s[k], x, y, env));
    }
  }

  /** A volley changes at most the two bullets its shots take; every other bullet is as it was. */
  lemma VolleyChangesAtMostTwo(s: seq<BulletState>, x: real, y: real, env: Env)
    ensures |VolleyStates(s, x, y, env)| == |s|
    ensures var k1, k2 := FirstInactiveIndex(s), FirstInactiveIndex(ShotStates(s, x + 25.0, y - 20.0, env));
      forall i :: 0 <= i < |s| && Some(i) != k1 && Some(i) != k2 ==> VolleyStates(s, x, y, env)[i] == s[i]
  {
    ShotLaunchesFirstInactive(s, x + 25.0, y - 20.0, env);
    ShotLaunchesFirstInactive(ShotStates(s, x + 25.0, y - 20.0, env), x - 25.0, y - 20.0, env);
  }

  /** The states of the pool's bullets, in pool order (see PoolStatesAt). */
  ghost function PoolStates(world: World): seq<BulletState>
    requires world.Valid()
    reads world, world.pool`components, world.pool`collisions, world.pool`tag, world.pool`position
    reads world.pool`active, world.pool`rotation, world.positions`x, world.positions`y, world.circles`center
  {
    StatesFrom(world, |world.bulletPool|)
  }

  /** The states of the first n pool bullets. */
  ghost function StatesFrom(world: World, n: nat): seq<BulletState>
    requires world.Valid() && n <= |world.bulletPool|
    reads world, world.pool`components, world.pool`collisions, world.pool`tag, world.pool`position
    reads world.pool`active, world.pool`rotation, world.positions`x, world.positions`y, world.circles`center
  {
    if n == 0 then [] else StatesFrom(world, n - 1) + [StateOf(world.bulletPool[n - 1])]
  }

  /** Entry i of the pool's states is the state of pool bullet i. */
  lemma PoolStatesAt(world: World)
    requires world.Valid()
    ensures |PoolStates(world)| == |world.bulletPool|
    ensures forall i :: 0 <= i < |world.bulletPool| ==> PoolStates(world)[i] == StateOf(world.bulletPool[i])
  {
    StatesFromAt(world, |world.bulletPool|);
  }

  lemma {:induction false} StatesFromAt(world: World, n: nat)
    requires world.Valid() && n <= |world.bulletPool|
    ensures |StatesFrom(world, n)| == n && forall i :: 0 <= i < n ==> StatesFrom(world, n)[i] == StateOf(world.bulletPool[i])
    decreases n
  {
    if n > 0 {
      StatesFromAt(world, n - 1);
    }
  }

  /** bullet_from_pool's answer is the pool bullet at the first inactive index of its states. */
  lemma FirstInactiveInStates(world: World)
    requires world.Valid()
    ensures |PoolStates(world)| == |world.bulletPool|
    ensures FirstInactive(world.bulletPool).None? <==> FirstInactiveIndex(PoolStates(world)).None?
    ensures FirstInactiveIndex(PoolStates(world)).Some? ==>
      FirstInactive(world.bulletPool) == Some(world.bulletPool[FirstInactiveIndex(PoolStates(world)).value])
  {
    PoolStatesAt(world);
    var s, bp := PoolStates(world), world.bulletPool;
    var fi := FirstInactiveIndex(s);
    if fi.Some? {
      var r := FirstInactive(bp);
      assert r.Some? by {
        assert s[fi.value] == StateOf(bp[fi.value]);
      }
      var i :| 0 <= i < |bp| && bp[i] == r.value && !r.value.active && forall j :: 0 <= j < i ==> bp[j].active;
      assert i == fi.value by {
        assert s[i] == StateOf(bp[i]) && s[fi.value] == StateOf(bp[fi.value]);
      }
    }
  }

  /** If every pool bullet but the one at k has the state it has in s, the pool's states are s
      with entry k replaced. */
  lemma StatesAfterLaunch(world: World, s: seq<BulletState>, k: nat)
    requires world.Valid() && |s| == |world.bulletPool| && k < |s|
    requires forall i :: 0 <= i < |s| && i != k ==> s[i] == StateOf(world.bulletPool[i])
    ensures PoolStates(world) == s[k := StateOf(world.bulletPool[k])]
  {
    PoolStatesAt(world);
  }

  // ---------------------------------------------------------------------------------------------
  // The bullet pool and the registry

  /** A bullet as create_bullet makes it, as far as an update cannot change it. */
  predicate IsPooledBullet(b: Entity)
    reads b`components, b`collisions, b`tag
  {
    && b.tag == "bullet"
    && |b.components| == 2 && b.components[0].SpriteRenderer? && b.components[1] == BulletMover(BulletSpeed)
    && |b.collisions| == 1 && b.collisions[0].radius == BulletSize
  }

  /** A bullet just as create_bullet returns it. */
  ghost predicate IsNewBullet(b: Entity, sprite: Sprite)
    reads b, b.position, b.collisions
  {
    && IsPooledBullet(b) && b.Valid() && !b.active
    && b.components == [SpriteRenderer(sprite), BulletMover(BulletSpeed)]
    && b.position.x == 0.0 && b.position.y == 0.0 && b.collisions[0].center == b.position
  }

  /** bullet_from_pool's answer: the first inactive bullet, or None when every bullet is active. */
  function FirstInactive(pool: seq<Entity>): (r: Option<Entity>)
    reads (set b | b in pool)`active
    ensures r.None? <==> forall i :: 0 <= i < |pool| ==> pool[i].active
    ensures r.Some? ==> exists i :: 0 <= i < |pool| && pool[i] == r.value && !r.value.active &&
                                    forall j :: 0 <= j < i ==> pool[j].active
    decreases |pool|
  {
    if pool == [] then None
    else if !pool[0].active then Some(pool[0])
    else
      var r := FirstInactive(pool[1..]);
      assert forall i :: 1 <= i < |pool| ==> pool[i] == pool[1..][i - 1];
      r
  }

  /** The module-level lists of entities.py: `Entities`, every entity of the game, and
      `Bullet_pool`, the bullets shots are taken from. */
  class World {
    var entities: seq<Entity>
    var bulletPool: seq<Entity>
    /** The pool's bullets, their position objects and their circles: what a shot may change. */
    ghost var pool: set<Entity>
    ghost var positions: set<Vec2>
    ghost var circles: set<Circle>
    /** The pool bullet each of those positions and circles belongs to. */
    ghost var positionOwner: map<Vec2, Entity>
    ghost var circleOwner: map<Circle, Entity>
    /** Where each pool bullet sits in the pool. */
    ghost var slot: map<Entity, nat>

    constructor ()
      ensures entities == [] && bulletPool == [] && Valid()
    {
      entities := [];
      bulletPool := [];
      pool, positions, circles, positionOwner, circleOwner, slot := {}, {}, {}, map[], map[], map[];
    }

    ghost function PoolSet(): set<Entity>
      reads this`bulletPool
    {
      set b | b in bulletPool
    }

    /** Every pooled bullet is shaped as create_bullet made it, and no two share a position or a
        circle (create_bullet makes both anew); `pool`, `positions` and `circles` are exactly the
        pool's bullets, their positions and their circles. */
    ghost predicate Valid()
      reads this, pool`components, pool`collisions, pool`tag, pool`position
    {
      Consistent()
    }

    ghost predicate Consistent()
      reads this, pool`components, pool`collisions, pool`tag, pool`position
    {
      && (forall b :: b in pool ==> b in bulletPool)
      && (forall p :: p in positions ==> p in positionOwner && positionOwner[p] in pool && positionOwner[p].position == p)
      && (forall c :: c in circles ==> c in circleOwner && circleOwner[c] in pool && c in circleOwner[c].collisions)
      && (forall i :: 0 <= i < |bulletPool| ==> bulletPool[i] in slot && slot[bulletPool[i]] == i)
      && forall b :: b in bulletPool ==>
           && b in pool && IsPooledBullet(b)
           && b.position in positions && positionOwner[b.position] == b
           && forall c :: c in b.collisions ==> c in circles && circleOwner[c] == b
    }

    /** bullet_from_pool: scans the pool in order and returns its first inactive bullet, or None.
        The pool is not changed. */
    method BulletFromPool() returns (r: Option<Entity>)
      ensures r == FirstInactive(bulletPool)
      ensures r.Some? ==> r.value in bulletPool
    {
      for i := 0 to |bulletPool|
        invariant FirstInactive(bulletPool[i..]) == FirstInactive(bulletPool)
      {
        assert bulletPool[i..][1..] == bulletPool[i + 1..];
        if !bulletPool[i].active {
          return Some(bulletPool[i]);
        }
      }
      r := None;
    }

    /** initialize_bullet_pool: appends 30 new inactive bullets to both the registry and the pool. */
    method InitializeBulletPool(sprite: Sprite)
      modifies this`entities, this`bulletPool, this`pool, this`positions, this`circles, this`positionOwner, this`circleOwner, this`slot
      ensures |entities| == old(|entities|) + BulletPoolSize && |bulletPool| == old(|bulletPool|) + BulletPoolSize
      ensures entities[..old(|entities|)] == old(entities) && bulletPool[..old(|bulletPool|)] == old(bulletPool)
      ensures entities[old(|entities|)..] == bulletPool[old(|bulletPool|)..]
      ensures forall k :: old(|bulletPool|) <= k < |bulletPool| ==>
        && IsNewBullet(bulletPool[k], sprite)
        && fresh(bulletPool[k]) && fresh(bulletPool[k].position) && fresh(bulletPool[k].collisions[0])
      ensures forall j, k :: old(|bulletPool|) <= j < k < |bulletPool| ==> bulletPool[j] != bulletPool[k]
      ensures old(Valid()) ==> Valid()
    {
      ghost var n0, p0 := |entities|, |bulletPool|;
      for i := 0 to BulletPoolSize
        invariant |entities| == n0 + i && |bulletPool| == p0 + i
        invariant entities[..n0] == old(entities) && bulletPool[..p0] == old(bulletPool)
        invariant entities[n0..] == bulletPool[p0..]
        invariant forall k :: p0 <= k < |bulletPool| ==>
          && IsNewBullet(bulletPool[k], sprite)
          && fresh(bulletPool[k]) && fresh(bulletPool[k].position) && fresh(bulletPool[k].collisions[0])
        invariant forall j, k :: p0 <= j < k < |bulletPool| ==> bulletPool[j] != bulletPool[k]
        invariant old(Valid()) ==> Valid()
      {
        var bullet := CreateBullet(sprite);
        Register(bullet);
      }
    }

    /** One bullet of initialize_bullet_pool joins the registry and the pool. */
    method Register(bullet: Entity)
      requires IsPooledBullet(bullet) && bullet !in bulletPool && bullet !in pool
      requires bullet.position !in positions && bullet.collisions[0] !in circles
      modifies this`entities, this`bulletPool, this`pool, this`positions, this`circles, this`positionOwner, this`circleOwner, this`slot
      ensures entities == old(entities) + [bullet] && bulletPool == old(bulletPool) + [bullet]
      ensures old(Valid()) ==> Valid()
    {
      ghost var wasValid := Valid();
      var entities', bulletPool' := entities + [bullet], bulletPool + [bullet];
      entities, bulletPool := entities', bulletPool';
      pool, positions, circles := pool + {bullet}, positions + {bullet.position}, circles + {bullet.collisions[0]};
      positionOwner, circleOwner := positionOwner[bullet.position := bullet], circleOwner[bullet.collisions[0] := bullet];
      slot := slot[bullet := |bulletPool| - 1];
      if wasValid {
        RegisteredValid(this, bullet);
      }
    }
  }

  /** The five parts of World.Consistent, over the values of the World's fields. */
  ghost predicate PoolOwned(pool: set<Entity>, bulletPool: seq<Entity>)
  {
    forall b :: b in pool ==> b in bulletPool
  }

  ghost predicate PositionsOwned(positions: set<Vec2>, positionOwner: map<Vec2, Entity>, pool: set<Entity>)
    reads pool`position
  {
    forall p :: p in positions ==> p in positionOwner && positionOwner[p] in pool && positionOwner[p].position == p
  }

  ghost predicate CirclesOwned(circles: set<Circle>, circleOwner: map<Circle, Entity>, pool: set<Entity>)
    reads pool`collisions
  {
    forall c :: c in circles ==> c in circleOwner && circleOwner[c] in pool && c in circleOwner[c].collisions
  }

  ghost predicate Slotted(bulletPool: seq<Entity>, slot: map<Entity, nat>)
  {
    forall i :: 0 <= i < |bulletPool| ==> bulletPool[i] in slot && slot[bulletPool[i]] == i
  }

  ghost predicate MembersShaped(bulletPool: seq<Entity>, pool: set<Entity>, positions: set<Vec2>, positionOwner: map<Vec2, Entity>,
                                circles: set<Circle>, circleOwner: map<Circle, Entity>)
    reads pool`components, pool`collisions, pool`tag, pool`position
  {
    forall b :: b in bulletPool ==>
      && b in pool && IsPooledBullet(b)
      && b.position in positions && b.position in positionOwner && positionOwner[b.position] == b
      && forall c :: c in b.collisions ==> c in circles && c in circleOwner && circleOwner[c] == b
  }

  lemma ConsistentParts(w: World)
    ensures w.Consistent() <==>
      && PoolOwned(w.pool, w.bulletPool)
      && PositionsOwned(w.positions, w.positionOwner, w.pool)
      && CirclesOwned(w.circles, w.circleOwner, w.pool)
      && Slotted(w.bulletPool, w.slot)
      && MembersShaped(w.bulletPool, w.pool, w.positions, w.positionOwner, w.circles, w.circleOwner)
  {
  }

  /** Adding one bullet shaped as create_bullet makes it, with its own position and circle, to the
      pool keeps the pool consistent. */
  twostate lemma RegisteredValid(w: World, new bullet: Entity)
    requires old(w.Valid()) && IsPooledBullet(bullet)
    requires bullet !in old(w.bulletPool) && bullet.position !in old(w.positions) && bullet.collisions[0] !in old(w.circles)
    requires w.bulletPool == old(w.bulletPool) + [bullet] && w.pool == old(w.pool) + {bullet}
    requires w.positions == old(w.positions) + {bullet.position} && w.circles == old(w.circles) + {bullet.collisions[0]}
    requires w.positionOwner == old(w.positionOwner)[bullet.position := bullet]
    requires w.circleOwner == old(w.circleOwner)[bullet.collisions[0] := bullet]
    requires w.slot == old(w.slot)[bullet := old(|w.bulletPool|)]
    requires forall b :: b in old(w.pool) ==> unchanged(b`components, b`collisions, b`tag, b`position)
    ensures w.Valid()
  {
    ConsistentParts(w);
    assert old(PoolOwned(w.pool, w.bulletPool)) && old(PositionsOwned(w.positions, w.positionOwner, w.pool));
    assert old(CirclesOwned(w.circles, w.circleOwner, w.pool)) && old(Slotted(w.bulletPool, w.slot));
    assert old(MembersShaped(w.bulletPool, w.pool, w.positions, w.positionOwner, w.circles, w.circleOwner));
    assert PositionsOwned(old(w.positions), old(w.positionOwner), old(w.pool));
    assert CirclesOwned(old(w.circles), old(w.circleOwner), old(w.pool));
    assert MembersShaped(old(w.bulletPool), old(w.pool), old(w.positions), old(w.positionOwner), old(w.circles), old(w.circleOwner));
    PoolOwnedAfterRegister(old(w.pool), old(w.bulletPool), bullet);
    PositionsOwnedAfterRegister(old(w.positions), old(w.positionOwner), old(w.pool), bullet);
    CirclesOwnedAfterRegister(old(w.circles), old(w.circleOwner), old(w.pool), bullet);
    SlottedAfterRegister(old(w.bulletPool), old(w.slot), bullet);
    MembersShapedAfterRegister(old(w.bulletPool), old(w.pool), old(w.positions), old(w.positionOwner), old(w.circles), old(w.circleOwner), bullet);
  }

  lemma PoolOwnedAfterRegister(pool: set<Entity>, bulletPool: seq<Entity>, bullet: Entity)
    requires PoolOwned(pool, bulletPool)
    ensures PoolOwned(pool + {bullet}, bulletPool + [bullet])
  {
    forall b | b in pool + {bullet} ensures b in bulletPool + [bullet] {
      if b != bullet {
        assert b in bulletPool;
      }
    }
  }

  lemma PositionsOwnedAfterRegister(positions: set<Vec2>, positionOwner: map<Vec2, Entity>, pool: set<Entity>, bullet: Entity)
    requires PositionsOwned(positions, positionOwner, pool) && bullet.position !in positions
    ensures PositionsOwned(positions + {bullet.position}, positionOwner[bullet.position := bullet], pool + {bullet})
  {
  }

  lemma CirclesOwnedAfterRegister(circles: set<Circle>, circleOwner: map<Circle, Entity>, pool: set<Entity>, bullet: Entity)
    requires CirclesOwned(circles, circleOwner, pool) && |bullet.collisions| > 0 && bullet.collisions[0] !in circles
    ensures CirclesOwned(circles + {bullet.collisions[0]}, circleOwner[bullet.collisions[0] := bullet], pool + {bullet})
  {
  }

  lemma SlottedAfterRegister(bulletPool: seq<Entity>, slot: map<Entity, nat>, bullet: Entity)
    requires Slotted(bulletPool, slot) && bullet !in bulletPool
    ensures Slotted(bulletPool + [bullet], slot[bullet := |bulletPool|])
  {
    forall i | 0 <= i < |bulletPool| + 1
      ensures (bulletPool + [bullet])[i] in slot[bullet := |bulletPool|] && slot[bullet := |bulletPool|][(bulletPool + [bullet])[i]] == i
    {
      if i < |bulletPool| {
        assert (bulletPool + [bullet])[i] == bulletPool[i];
      }
    }
  }

  lemma MembersShapedAfterRegister(bulletPool: seq<Entity>, pool: set<Entity>, positions: set<Vec2>, positionOwner: map<Vec2, Entity>,
                                   circles: set<Circle>, circleOwner: map<Circle, Entity>, bullet: Entity)
    requires MembersShaped(bulletPool, pool, positions, positionOwner, circles, circleOwner)
    requires IsPooledBullet(bullet) && bullet.position !in positions && bullet.collisions[0] !in circles
    ensures MembersShaped(bulletPool + [bullet], pool + {bullet}, positions + {bullet.position}, positionOwner[bullet.position := bullet],
                          circles + {bullet.collisions[0]}, circleOwner[bullet.collisions[0] := bullet])
  {
    forall b | b in bulletPool + [bullet]
      ensures && b in pool + {bullet} && IsPooledBullet(b)
              && b.position in positions + {bullet.position} && b.position in positionOwner[bullet.position := bullet]
              && positionOwner[bullet.position := bullet][b.position] == b
              && forall c :: c in b.collisions ==> c in circles + {bullet.collisions[0]} && c in circleOwner[bullet.collisions[0] := bullet]
                                                   && circleOwner[bullet.collisions[0] := bullet][c] == b
    {
      if b != bullet {
        assert b in bulletPool;
      } else {
        assert forall c :: c in b.collisions ==> c == bullet.collisions[0];
      }
    }
  }

  // ---------------------------------------------------------------------------------------------
  // Assembly

  /** create_bullet: an inactive entity tagged "bullet" at (0, 0) with a SpriteRenderer and a
      BulletMover of speed 10, and one circle of radius 8 whose centre is the bullet's own
      position object. */
  method CreateBullet(sprite: Sprite) returns (bullet: Entity)
    ensures IsPooledBullet(bullet) && bullet.Valid() && !bullet.active
    ensures fresh(bullet) && fresh(bullet.position) && fresh(bullet.collisions[0])
    ensures bullet.components == [SpriteRenderer(sprite), BulletMover(BulletSpeed)]
    ensures bullet.position.x == 0.0 && bullet.position.y == 0.0 && bullet.collisions[0].center == bullet.position
  {
    bullet := new Entity();
    bullet.position := new Vec2(0.0, 0.0);
    bullet.active := false;
    bullet.tag := "bullet";
    AttachBulletComponents(bullet, sprite);
    BulletComponentsValid(bullet, sprite);
    var collision := new Circle(bullet.position, BulletSize);
    bullet.collisions := bullet.collisions + [collision];
  }

  /** The two add_component calls of create_bullet. */
  method AttachBulletComponents(bullet: Entity, sprite: Sprite)
    requires bullet.components == []
    modifies bullet`components
    ensures bullet.components == [SpriteRenderer(sprite), BulletMover(BulletSpeed)]
  {
    var _ := bullet.AddComponent(SpriteRenderer(sprite));
    assert bullet.components == [SpriteRenderer(sprite)];
    assert !HasKind([SpriteRenderer(sprite)], BulletMoverKind) by {
      assert KindOf(SpriteRenderer(sprite)) != BulletMoverKind;
    }
    var _ := bullet.AddComponent(BulletMover(BulletSpeed));
  }

  lemma BulletComponentsValid(bullet: Entity, sprite: Sprite)
    requires bullet.components == [SpriteRenderer(sprite), BulletMover(BulletSpeed)]
    ensures bullet.Valid()
  {
  }

  /** create_player: an active entity tagged "player", centred at the bottom of the screen, with a
      SpriteRenderer, a KeyboardMover of speed 5 and a KeyboardShooter with a 250 ms cooldown, and
      no collision circle. */
  method CreatePlayer(sprite: Sprite) returns (player: Entity)
    ensures fresh(player) && fresh(player.position)
    ensures player.active && player.tag == "player" && player.collisions == [] && player.Valid()
    ensures player.position.x == Config.ScreenWidth as real / 2.0
    ensures player.position.y == Config.ScreenHeight as real - PlayerSize as real / 2.0
    ensures |player.components| == 3
    ensures player.components[0] == SpriteRenderer(sprite)
    ensures player.components[1] == KeyboardMover(PlayerSpeed, sprite)
    ensures player.components[2].KeyboardShooterRef? && fresh(player.components[2].shooter)
    ensures player.components[2].shooter.cooldown == PlayerShotCooldown
    ensures player.components[2].shooter.lastShot == 0
  {
    player := new Entity();
    player.position := new Vec2(Config.ScreenWidth as real / 2.0, Config.ScreenHeight as real - PlayerSize as real / 2.0);
    player.active := true;
    player.tag := "player";
    var shooter := AttachPlayerComponents(player, sprite);
    PlayerComponentsValid(player, sprite, shooter);
  }

  /** The three add_component calls of create_player, with the KeyboardMover looking up the
      SpriteRenderer attached just before it. */
  method AttachPlayerComponents(player: Entity, sprite: Sprite) returns (shooter: KeyboardShooter)
    requires player.components == []
    modifies player`components
    ensures fresh(shooter) && shooter.cooldown == PlayerShotCooldown && shooter.lastShot == 0
    ensures player.components == [SpriteRenderer(sprite), KeyboardMover(PlayerSpeed, sprite), KeyboardShooterRef(shooter)]
  {
    AttachPlayerMovement(player, sprite);
    shooter := new KeyboardShooter(PlayerShotCooldown);
    ghost var two := player.components;
    assert !HasKind(two, KeyboardShooterKind) by {
      assert KindOf(two[0]) != KeyboardShooterKind && KindOf(two[1]) != KeyboardShooterKind;
    }
    var _ := player.AddComponent(KeyboardShooterRef(shooter));
  }

  /** The first two add_component calls of create_player: the SpriteRenderer, then the
      KeyboardMover that finds it. */
  method AttachPlayerMovement(player: Entity, sprite: Sprite)
    requires player.components == []
    modifies player`components
    ensures player.components == [SpriteRenderer(sprite), KeyboardMover(PlayerSpeed, sprite)]
  {
    var _ := player.AddComponent(SpriteRenderer(sprite));
    assert player.components == [SpriteRenderer(sprite)];
    assert KindOf(player.components[0]) == SpriteRendererKind;
    var mover := NewKeyboardMover(player, PlayerSpeed);
    assert mover == Ok(KeyboardMover(PlayerSpeed, sprite));
    ghost var one := player.components;
    assert !HasKind(one, KeyboardMoverKind) by {
      assert KindOf(one[0]) != KeyboardMoverKind;
    }
    var _ := player.AddComponent(mover.value);
  }

  lemma PlayerComponentsValid(player: Entity, sprite: Sprite, shooter: KeyboardShooter)
    requires player.components == [SpriteRenderer(sprite), KeyboardMover(PlayerSpeed, sprite), KeyboardShooterRef(shooter)]
    ensures player.Valid()
  {
    var cs := player.components;
    assert cs[1].KeyboardMover? && cs[0] == SpriteRenderer(cs[1].sprite);
  }

  /** The Animator create_enemy gives an enemy: an "idle" sequence (5 frames per second, looping,
      the one it starts with) and a "destroy" sequence (15 per second, not looping), both at their
      first frame, with the frame timer started at `now`. */
  ghost predicate IsEnemyAnimator(a: Animator, idle: seq<Texture>, destroy: seq<Texture>, now: int)
    reads a, a.sequences.Values
  {
    && a.sequences.Keys == {"idle", "destroy"}
    && a.sequences["idle"].textures == idle && a.sequences["idle"].sampleRate == 5 && a.sequences["idle"].loop
    && a.sequences["destroy"].textures == destroy && a.sequences["destroy"].sampleRate == 15
    && !a.sequences["destroy"].loop
    && a.sequences["idle"].currentFrame == 0 && a.sequences["destroy"].currentFrame == 0
    && a.sequences["idle"] != a.sequences["destroy"]
    && a.currentAnimationPlaying == "idle" && !a.finished && a.lastFrameChange == now
  }

  method NewEnemyAnimator(idle: seq<Texture>, destroy: seq<Texture>, now: int) returns (animator: Animator)
    ensures fresh(animator) && fresh(animator.sequences.Values)
    ensures IsEnemyAnimator(animator, idle, destroy, now)
  {
    var idleSequence := new Sequence(idle, 5, true);
    var destroySequence := new Sequence(destroy, 15, false);
    var sequences := map["idle" := idleSequence, "destroy" := destroySequence];
    animator := new Animator(sequences, "idle", now);
  }

  /** create_enemy: an active entity tagged "enemy" at the given position object, rotated 180,
      with the enemy Animator, then a VulnerableToBullets on that Animator, and one circle of
      radius 38 whose centre is the enemy's position object. */
  method CreateEnemy(position: Vec2, idle: seq<Texture>, destroy: seq<Texture>, now: int) returns (enemy: Entity)
    ensures fresh(enemy) && enemy.position == position && enemy.rotation == 180.0
    ensures enemy.active && enemy.tag == "enemy" && enemy.Valid()
    ensures |enemy.components| == 2 && enemy.components[0].AnimatorRef?
    ensures var a := enemy.components[0].animator;
      && fresh(a) && enemy.components[1] == VulnerableToBullets(a) && IsEnemyAnimator(a, idle, destroy, now)
    ensures |enemy.collisions| == 1 && fresh(enemy.collisions[0])
    ensures enemy.collisions[0].center == position && enemy.collisions[0].radius == EnemyRadius
  {
    enemy := new Entity();
    enemy.position := position;
    enemy.rotation := 180.0;
    enemy.active := true;
    enemy.tag := "enemy";
    var animator := NewEnemyAnimator(idle, destroy, now);
    AttachEnemyComponents(enemy, animator);
    EnemyComponentsValid(enemy, animator);
    var collision := new Circle(enemy.position, EnemyRadius);
    enemy.collisions := enemy.collisions + [collision];
  }

  /** The two add_component calls of create_enemy, with the VulnerableToBullets looking up the
      Animator attached just before it. */
  method AttachEnemyComponents(enemy: Entity, animator: Animator)
    requires enemy.components == []
    modifies enemy`components
    ensures enemy.components == [AnimatorRef(animator), VulnerableToBullets(animator)]
  {
    var _ := enemy.AddComponent(AnimatorRef(animator));
    assert enemy.components == [AnimatorRef(animator)];
    assert KindOf(enemy.components[0]) == AnimatorKind;
    var vulnerable := NewVulnerableToBullets(enemy);
    assert vulnerable == Ok(VulnerableToBullets(animator));
    ghost var one := enemy.components;
    assert !HasKind(one, VulnerableToBulletsKind) by {
      assert KindOf(one[0]) != VulnerableToBulletsKind;
    }
    var _ := enemy.AddComponent(vulnerable.value);
  }

  lemma EnemyComponentsValid(enemy: Entity, animator: Animator)
    requires enemy.components == [AnimatorRef(animator), VulnerableToBullets(animator)]
    ensures enemy.Valid()
  {
    var cs := enemy.components;
    assert cs[0] == AnimatorRef(cs[1].animator);
  }
}
