# Space Invaders ECS: the simulation core in Dafny

This project models the simulation core of a small Space Invaders game. The game is built on an
entity/component design. It verifies what that core promises.

- **Entities** (`Entities.Entity`) hold a transform, an `active` flag, a tag, an ordered list of
  components and a list of collision circles. Components are attached with `add_component`,
  which allows at most one component per class. They are looked up with `get_component`.
  `update`, `draw` and `collision` fan out to the components in attachment order.
- **The component behaviours** are a frame sequence (`Components.Sequence`), a time-gated
  `Components.Animator`, and `VulnerableToBullets`, which starts the "destroy" animation when a
  bullet hits and deactivates its entity once that animation has finished. The others are
  `BulletMover`, which moves along the rotation and deactivates off the field and on any hit,
  `KeyboardMover`, a guarded horizontal move, and `KeyboardShooter`, a cooldown-gated volley of
  two shots.
- **The bullet pool and the registry** (`Entities.World`). `initialize_bullet_pool` puts 30
  inactive bullets in both lists. `bullet_from_pool` returns the first inactive pool bullet, or
  nothing.
- **The assembly functions** `create_bullet`, `create_player` and `create_enemy`.
- **The collision pass** `check_collisions` (`CollisionPass.CheckCollisions`). It tests every
  circle of every registry entry against every circle of every later entry. For an overlap found
  while both entries are active, it notifies the first entity and then the second.

## How the collision pass is specified

Module `Collision` gives the reference definition. `AllTests(counts)` is the sequence of
circle tests `Test(i, j, k, l)` that the four nested loops make. `Pass` folds one `Step` per
test over a pass state, which holds the hits so far and the set of inactive entities. A step is a
hit when its circles overlap and both entities are active at that moment. A hit deactivates each
entity of the pair that has a BulletMover. The lemmas about `AllTests` and `Pass` prove:

- every pair i < j and every pair of their circles is tested exactly once, in loop order;
- nothing else is tested;
- a hit needs both entities active at the moment of its own test;
- a bullet hit once is never hit again in the same pass;
- no overlap between entities that are still active is missed.

Module `CollisionPass` runs the pass on objects in the heap, with one method per loop. Its
contract ties the heap after the pass to `Pass` over `AllTests`:

- each entity is active exactly when the reference pass leaves it active;
- every Animator that a hit paired with a "bullet" shows "destroy" from `now`;
- every other Animator is left as it was.

## Where the code does something other than one might expect

The model follows the code in each of these cases.

- One might expect a KeyboardMover to keep half the sprite inside the field. The code instead
  tests the position before it moves, so the sprite can leave the field by part of one step
  (`Entities.KeyboardStepCanCrossEdge`). What does hold is that it never gets further out than
  one step (`Entities.KeyboardStepStaysWithinOneStep`).
- One might expect an overlapping player and enemy both to be notified. The code instead gives
  the player no collision circle (entities.py:73-91), so the pass never tests it and never
  notifies it.
- One might expect every overlapping circle pair to be notified once per tick. The code instead
  re-reads both `active` flags before each circle test. A bullet deactivated by an earlier hit of
  the same pass is therefore not notified again (`Collision.PassBulletHitOnce`).
- One might expect the two shots of a volley always to take two bullets. The code instead takes
  different bullets exactly when the first one is still on the field after its own update
  (`Entities.VolleyTakesTwoIffFirstStays`). A bullet that leaves the field at once is inactive
  again, so the second shot takes that same bullet (`Entities.VolleySecondShot`).
- The left shot reads the shooter's position object afresh (components.py:226). The model says
  where it was fired from (`leftX`, `leftY` of `Entities.UpdateKeyboardShooter`). That is
  (x - 25, y - 20) of the volley's start whenever the shooter's position object is not a pool
  bullet's, which holds for the player that create_player makes.
- The game loop (main.py) appends to and iterates `entities.System`, which entities.py does not
  define; the registry is `Entities` (entities.py:182). main.py is not part of this model.

## Model

| member | source | states |
|---|---|---|
| Geometry.Circle.constructor | collision.py:9-11 | a circle holds the very position object it was given and its radius |
| Geometry.OverlapSymmetric | collision.py:14-18 | the overlap test does not depend on the order of the two circles |
| Geometry.CollideSymmetric | collision.py:14-18 | `collide(c1, c2) == collide(c2, c1)` |
| Geometry.OverlapIsDistanceTest | collision.py:16-18 | for any non-negative distance whose square is the squared centre distance: overlap holds exactly when that distance is at most the sum of the radii, so touching circles collide |
| Geometry.CollideIsDistanceTest | collision.py:16-18 | the same, on circle objects |
| Components.AttachKeepsUniqueKinds | entities.py:33-36 | one add_component keeps "at most one component per class" |
| Components.AttachAllKeepsUniqueKinds | entities.py:28-36 | any series of add_component calls from an empty or duplicate-free list leaves at most one component per class |
| Components.AttachAllExtends | entities.py:36 | add_component never drops or reorders components already attached |
| Components.FrameStep | components.py:81-89 | one next_frame: before the last frame it moves one on and reports not finished; at the last frame it wraps to 0 when looping, and otherwise stays and reports finished; the index stays below the frame count; finished exactly when not looping and at the last frame |
| Components.FrameAfterAdvances | components.py:87-89 | before the last frame, k calls move the index k frames on |
| Components.LoopingSequenceWraps | components.py:82-84 | a looping sequence of n frames is back at frame 0 after n calls |
| Components.NonLoopingSequenceStops | components.py:82-86 | a non-looping sequence advances to its last frame and then stays there, however many calls follow |
| Components.Sequence.constructor | components.py:63-76 | a sequence starts at frame 0 with the given textures, rate and loop flag |
| Components.Sequence.CurrentTexture | components.py:78-79 | the texture of the current frame, or IndexError exactly when the index is past the last texture |
| Components.Sequence.NextFrame | components.py:81-89 | the new frame index and the result are those of FrameStep on the old index |
| Components.FrameDueWithoutDivision | components.py:115-117 | for a positive sample rate, "elapsed >= 1000 / rate" is "elapsed * rate >= 1000" |
| Components.Animator.constructor | components.py:93-101 | an Animator starts unfinished, on its default sequence, with the frame timer at the current clock |
| Components.Animator.SetSequence | components.py:103-105 | set_sequence sets the name and restarts the timer, and nothing else: frame indices and `finished` are unchanged |
| Components.Animator.Update | components.py:113-119 | the Animator's state after update, and the result, are AnimatorStep of its state before (see AnimatorStepSpec) |
| Components.AnimatorStepSpec | components.py:113-119 | update fails exactly on a missing sequence name (KeyError) or a zero rate (ZeroDivisionError), and then changes nothing; it never changes which sequence plays or another sequence's frame; before 1000 / rate milliseconds have passed it changes nothing; once they have, the current sequence takes one FrameStep, `finished` is that step's flag and the timer restarts at now; the frame index stays in range |
| Components.AnimatorGateForPositiveRate | components.py:115-119 | for a positive rate, the time gate is elapsed * rate against 1000: below it update changes nothing, at or above it the current sequence takes its FrameStep and the timer restarts |
| Components.Animator.CurrentTexture | components.py:107-109 | the texture Animator.draw shows is the current frame of the current sequence; a missing sequence is a KeyError |
| Components.KeyboardShooter.constructor | components.py:211-214 | a shooter starts with its cooldown and last_shot 0 |
| Entities.DrawAll | entities.py:51-53 | drawing succeeds exactly when every component draws; then there is one request per drawing component, each at the entity's position and rotation |
| Entities.DrawFailureEndsDrawing | entities.py:51-53 | the first component that fails to draw ends the call; later components make no difference |
| Entities.Entity.constructor | entities.py:10-26 | a new entity is inactive, untagged, at (0, 0) with rotation 0, with no component and no circle |
| Entities.Entity.AddComponent | entities.py:28-36 | raises DuplicateComponent exactly when a component of the same class is attached, and then leaves the list unchanged; otherwise appends at the end |
| Entities.Entity.GetComponent | entities.py:38-42 | the first attached component of the class; MissingComponent exactly when there is none |
| Entities.Entity.Draw | entities.py:51-53 | the draw requests are those of DrawAll over the components, in order, and drawing changes nothing |
| Entities.Entity.Update | entities.py:47-49 | a bullet-shaped entity moves as its BulletMover says, stays active exactly when it was active and is still on the field, and has its circle on its position; an enemy-shaped entity's Animator takes one AnimatorStep, unless that failed the entity goes inactive in the same call exactly when the Animator is now finished on "destroy", and its position and circle centres do not move; the bullet pool stays consistent |
| Entities.Entity.UpdateNth | entities.py:48-49 | one turn of the loop: for a bullet-shaped entity, the SpriteRenderer's turn changes nothing and the BulletMover's moves it; for an enemy-shaped entity, the Animator's turn steps it and the VulnerableToBullets turn sets `active`, neither moving the entity or its circles |
| Entities.Entity.UpdateComponent | entities.py:48-49 | one component's update, per class: a SpriteRenderer changes nothing; an Animator steps as AnimatorStep says; a VulnerableToBullets leaves its Animator alone, and the entity stays active exactly when it was active and that Animator is not finished on "destroy"; a BulletMover moves the entity and sets `active` even when it then raises IndexError for want of a circle, and otherwise keeps its circle on it; a KeyboardMover moves x by KeyboardStep and keeps y and everything else of the entity; a KeyboardShooter fires a volley or leaves the pool and last_shot as they were, and does not move a shooter whose position is no pool bullet's. All but the BulletMover and the KeyboardShooter keep the entity's circles, the shooters and the pool's states (a KeyboardMover's only when its position is no pool bullet's) |
| Entities.Entity.Collision | entities.py:55-57 | after the fan-out the entity is active exactly when it was active and has no BulletMover; from a "bullet" every VulnerableToBullets Animator shows "destroy" from now, and from anything else none changes |
| Entities.UpdateVulnerable | components.py:134-136 | the entity is deactivated exactly when its Animator has finished and plays "destroy"; its position, circles, Animators, shooters and the pool's states do not change |
| Entities.UpdateAnimatorRef | components.py:113-119 | an Animator's update as seen from its entity: the Animator takes its AnimatorStep, and the entity, its circles, its shooters and the pool's states do not change |
| Entities.CollideVulnerable | components.py:138-140 | the Animator switches to "destroy" exactly when the other entity is tagged "bullet"; otherwise it is unchanged |
| Entities.UpdateBulletMover | components.py:151-162 | the position moves by speed * delta_time along the rotation; the bullet stays active exactly when it was active and the new position is on the field, edges included; the first circle is centred on the position; with no circle it raises IndexError, after moving and deactivating; rotation, Animators and shooters do not change |
| Entities.CollideBulletMover | components.py:164-171 | any hit deactivates the bullet |
| Entities.UpdateKeyboardMover | components.py:196-204 | the new x is KeyboardStep of the old one; y, the entity's other fields, its circles, Animators and shooters never change; when the position object is no pool bullet's, neither do the pool's states |
| Entities.LeftKeyWins | components.py:199-204 | with the left key held the right key makes no difference, and a non-negative step never moves right |
| Entities.KeyboardStepStaysWithinOneStep | components.py:199-204 | a sprite at most one step out of the field is never moved further out |
| Entities.KeyboardStepCanCrossEdge | components.py:200-201 | a player at x = 53 with a 105-wide sprite ends up partly outside the field after a left step |
| Entities.UpdateKeyboardShooter | components.py:219-227 | with space up or the cooldown not over, last_shot and every pool bullet are as they were; otherwise last_shot becomes now, even when the pool is empty, and the pool's states are those of two shots, from (x + 25, y - 20) and then from where the left shot reads the position; from a shooter whose position is no pool bullet's, that is the volley from (x, y), and the shooter does not move |
| Entities.FireVolley | components.py:225-227 | the firing branch: last_shot becomes now and the pool's states are those of the two shots; from a position object that is no pool bullet's, they are the volley from (x, y) and the position does not move |
| Entities.Volley | components.py:225-226 | the pool's states after the two shots are ShotStates from the right turret and then ShotStates from the left one; when the shooter's position object is no pool bullet's, the left shot leaves from 25 left of and 20 above the start |
| Entities.Shoot | components.py:229-238 | the pool's states after shoot are ShotStates of those before: with no inactive bullet nothing changes; otherwise only the first inactive bullet changes, to its LaunchState |
| Entities.Launch | components.py:234-238 | the found bullet ends in LaunchState: active exactly when still on the field after one move from (x, y), turned up the screen, with its circle on its position; every other pool bullet is as it was; the pool's states are the old ones with that bullet's replaced |
| Entities.PlaceAndUpdate | components.py:234-238 | the bullet's own steps of shoot: it ends in LaunchState, and no other pool bullet changes, because no two pool bullets share a position object or a circle |
| Entities.ShotLaunchesFirstInactive | components.py:229-238 | one shot changes exactly one bullet, the first inactive one, or nothing when all are active; that bullet has moved once from (x, y), points up the screen, is active exactly when on the field and has its circle on its own position |
| Entities.VolleySecondShot | components.py:225-226 | the second shot takes nothing when the first took nothing, the first's bullet again when that one left the field at once, and otherwise the next inactive bullet after it |
| Entities.VolleyTakesTwoIffFirstStays | components.py:225-226 | when both shots find a bullet, they take different bullets exactly when the first bullet is still on the field |
| Entities.ShotActivatesAtMostOne | components.py:229-238 | a shot adds one active bullet exactly when there was an inactive one and the launched bullet stays on the field, and otherwise none |
| Entities.VolleyChangesAtMostTwo | components.py:225-226 | a volley changes no bullet other than the two its shots take |
| Entities.FirstInactiveIndex | entities.py:135-138 | on the pool's states: None exactly when every bullet is active, otherwise the index of the first inactive one, every earlier one being active |
| Entities.FirstInactiveInStates | entities.py:135-138 | bullet_from_pool's answer is the pool bullet at FirstInactiveIndex of the pool's states, and None exactly when that index is |
| Entities.PoolBulletsApart | entities.py:100-115 | because create_bullet makes each bullet's position and circle anew, no two pool bullets share a position object or a circle |
| Entities.NewKeyboardMover | components.py:190-191 | KeyboardMover's constructor takes the sprite of the first SpriteRenderer and raises when there is none |
| Entities.NewVulnerableToBullets | components.py:128-129 | VulnerableToBullets' constructor holds the first attached Animator and raises when there is none |
| Entities.FirstInactive | entities.py:135-138 | None exactly when every pool bullet is active; otherwise the first inactive bullet, every earlier one being active |
| Entities.World.constructor | entities.py:118 | both lists start empty |
| Entities.World.BulletFromPool | entities.py:128-138 | the scan returns FirstInactive of the pool, a pool member, and changes nothing |
| Entities.World.InitializeBulletPool | entities.py:121-125 | exactly 30 new, distinct, inactive bullets are appended to both the registry and the pool, in the same order; what was there is kept |
| Entities.World.Register | entities.py:124-125 | one bullet is appended to both the registry and the pool, and the pool stays consistent |
| Entities.CreateBullet | entities.py:100-115 | an inactive "bullet" at (0, 0) holding exactly the SpriteRenderer and a BulletMover of speed 10, with one circle of radius 8 whose centre is the bullet's own position object |
| Entities.AttachBulletComponents | entities.py:106-111 | the two add_component calls attach exactly those two components |
| Entities.CreatePlayer | entities.py:73-91 | an active "player" centred at the bottom, with SpriteRenderer, KeyboardMover of speed 5 and KeyboardShooter of cooldown 250, in that order, and no collision circle |
| Entities.AttachPlayerComponents | entities.py:82-90 | the three add_component calls attach exactly those three components |
| Entities.AttachPlayerMovement | entities.py:82-87 | the first two add_component calls attach the SpriteRenderer, then the KeyboardMover holding its sprite |
| Entities.NewEnemyAnimator | entities.py:154-164 | the enemy Animator: an "idle" sequence (5 per second, looping, playing) and a separate "destroy" sequence (15 per second, not looping), both at frame 0 |
| Entities.CreateEnemy | entities.py:146-175 | an active "enemy" at the given position object, rotated 180, with its Animator before the VulnerableToBullets holding it, and one circle of radius 38 sharing the position object |
| Entities.AttachEnemyComponents | entities.py:164-168 | the two add_component calls attach exactly the Animator and then VulnerableToBullets on it |
| Collision.Pass | collision.py:34-36 | a pass only records hits between registry positions and never reactivates an entity |
| Collision.AllTestsMembers | collision.py:25-30 | the loops test a circle pair exactly when it belongs to positions i < j; no entity is paired with its own position |
| Collision.AllTestsIncreasing | collision.py:25-30 | the tests come in loop order (by i, j, k, l), so none is made twice |
| Collision.RunRowsIsPass | collision.py:25-30 | running the four nested loops level by level is the reference pass over AllTests |
| Collision.PassHitsAreTests | collision.py:34 | every hit is one of the tests made so far, and its circles overlap |
| Collision.PassActiveAtStart | collision.py:34 | both entities of every hit were active when the pass began |
| Collision.PassHitsIncreasing | collision.py:29-36 | the hits come in the order of the tests |
| Collision.PassOff | components.py:164-171 | at every point of a pass, an entity is inactive exactly when it was inactive at the start or it is a bullet that some hit so far concerned |
| Collision.PassBulletHitOnce | collision.py:29-36 | once a hit has concerned a bullet, no later hit of the pass concerns it |
| Collision.PassComplete | collision.py:34 | a test whose circles overlap and whose entities are both still active afterwards was a hit |
| Collision.PassOverRegistry | collision.py:25-36 | every hit of the whole pass is a valid test (positions i < j, circle k of i, circle l of j) whose circles overlap, so an entity without circles is never in a hit; the hits are in loop order, so no circle pair is hit twice |
| CollisionPass.NotifyOne | entities.py:55-57 | `es[x].collision(es[y])`: the activity is updated by es[x]'s BulletMover; es[x]'s Animators switch to "destroy" when es[y] is a "bullet"; every other tracked Animator is unchanged |
| CollisionPass.NotifyBoth | collision.py:35-36 | the first entity is notified and then the second; together they deactivate whichever of the pair are bullets and switch exactly the Animators that DestroyedBy names |
| CollisionPass.RecordHit | collision.py:35-36 | after the two notifications, the heap shows the pass state with the hit appended |
| CollisionPass.CheckTest | collision.py:34-36 | one test of the pass changes the heap as one Step of the reference pass |
| CollisionPass.CheckCircle | collision.py:30-36 | one turn of the innermost loop moves the pass state one test on along the line |
| CollisionPass.CheckCircles | collision.py:30-36 | the innermost loop is the run over one line of tests |
| CollisionPass.CheckPair | collision.py:29-36 | the two circle loops are the run over one block of tests |
| CollisionPass.CheckRow | collision.py:28-36 | the loop over later entities is the run over one row of tests |
| CollisionPass.CheckRows | collision.py:25-36 | the outer loop over all entries but the last is the run over every row |
| CollisionPass.CheckCollisions | collision.py:21-38 | after check_collisions each registry entity is active exactly when the reference pass over AllTests leaves it active; an Animator that some hit paired with a "bullet" shows "destroy" from now, and every other Animator is left as it was |

## Left out

- Floating point: coordinates, radii and speeds are `real`. `collide` compares squared
  distances instead of taking `sqrt` (Geometry.OverlapIsDistanceTest relates the two), and the
  cosine and sine of BulletMover are uninterpreted functions carried by `Env`.
- SDL, as foreign I/O: texture loading (the Sequence constructor's directory listing, BMP
  loading), `SDL_QueryTexture` and `draw_texture`. Textures are opaque numbers, a sprite's width
  and height are given, and drawing returns draw requests.
- The clock, keyboard and delta time are parameters (`now` and `Env`). The 32-bit wrap-around of
  `SDL_GetTicks` is not modelled; clock values are unbounded integers.
- One clock reading per call: the source calls `SDL_GetTicks` afresh at each use
  (components.py:105, 117, 119, 223 and 227), while the model passes one `now` to an update or
  a collision pass. So `last_frame_change` and `last_shot` are set to the very time that was
  tested, where the source may store a slightly later one.
- Entities.UpdateKeyboardShooter records `last_shot` before the two shots, where the source
  sets it after them (components.py:225-227). Neither shot reads or touches the shooter, so the
  state after the call is the same.
- Entities.UpdateKeyboardShooter: the volley is stated as VolleyStates from the starting (x, y)
  only when the shooter's position object is no pool bullet's; otherwise the left shot's origin
  is given as read (`leftX`, `leftY`).
- Entities.World.InitializeBulletPool: all 30 bullets share the one `sprite` passed in, where the
  source loads the bullet texture anew for each bullet (entities.py:106-107). Textures are
  opaque values here, so only their identity differs.
- The game loop of main.py and its `delta_time` computation. Both are window and event I/O
  around calls the model has, and main.py also uses a registry name the program does not define.
- helpers.py: `sdl` and the texture helpers are SDL wrappers; `Vec2f` is `Geometry.Vec2`.
- Python's dynamic typing: `isinstance` tests become a `Kind` per component class, and only the
  six component classes of components.py exist.
- The abstract `Component` interface and the no-op `collision` methods of SpriteRenderer,
  Animator, KeyboardMover and KeyboardShooter (components.py:240-241) are not separate
  members. `Entities.Entity.Collision` dispatches only the two reacting classes, which gives the
  same result.
- Entities.Entity.Update: the final state is stated only for bullet-shaped and enemy-shaped
  entities. For the player, and for any other mix of components, the contract gives the frame
  of what may change; each component's effect is given by UpdateComponent.
- Entities.Entity.UpdateComponent: a KeyboardMover keeps the pool's states, and a
  KeyboardShooter keeps its own position, only when the entity's position object is no pool
  bullet's. Nothing in the model's state stops an entity sharing a pool bullet's position
  object, and then the move or the shot changes that bullet. A BulletMover's update does not
  keep the pool's states: a pool bullet's own update is part of shoot (Entities.PlaceAndUpdate).
  For a KeyboardShooter the entity's circles are not said to be kept, for the same reason as its
  position.
- CollisionPass.CheckCollisions: the registry is passed in as a sequence, so the pass cannot add,
  remove or reorder entries. The order in which the pass changes Animators between two hits is
  not recorded; only the state after the pass is.
