/** The collision pass (collision.check_collisions): every circle of every entity against every
    circle of every later entity of the registry, notifying both entities of each overlap found
    while both are active. */
module Collision {
  import opened Geometry
  import opened Components
  import opened Entities

  /** One circle test of the pass: circle `k` of entity `i` against circle `l` of entity `j`. */
  datatype Test = Test(i: nat, j: nat, k: nat, l: nat)

  /** The order in which the nested loops reach tests: by i, then j, then k, then l. */
  predicate Before(s: Test, t: Test)
  {
    || s.i < t.i
    || (s.i == t.i && s.j < t.j)
    || (s.i == t.i && s.j == t.j && s.k < t.k)
    || (s.i == t.i && s.j == t.j && s.k == t.k && s.l < t.l)
  }

  predicate Increasing(s: seq<Test>)
  {
    forall p, q :: 0 <= p < q < |s| ==> Before(s[p], s[q])
  }

  // ---------------------------------------------------------------------------------------------
  // The tests of a pass, level by level of the loop nest. `counts[x]` is the number of circles of
  // entity x.

  /** The innermost loop: circle k of entity i against the first `l` circles of entity j. */
  function Line(i: nat, j: nat, k: nat, l: nat): (r: seq<Test>)
    ensures |r| == l
    decreases l
  {
    if l == 0 then [] else Line(i, j, k, l - 1) + [Test(i, j, k, l - 1)]
  }

  /** The first `k` circles of entity i, each against all `cl` circles of entity j. */
  function Block(i: nat, j: nat, cl: nat, k: nat): seq<Test>
    decreases k
  {
    if k == 0 then [] else Block(i, j, cl, k - 1) + Line(i, j, k - 1, cl)
  }

  /** Entity i against the entities strictly between i and j. */
  function RowUpTo(counts: seq<nat>, i: nat, j: nat): seq<Test>
    requires i < |counts| && j <= |counts|
    decreases j
  {
    if j <= i + 1 then [] else RowUpTo(counts, i, j - 1) + Block(i, j - 1, counts[j - 1], counts[i])
  }

  /** The first `i` turns of the outer loop. */
  function RowsUpTo(counts: seq<nat>, i: nat): seq<Test>
    requires i <= |counts|
    decreases i
  {
    if i == 0 then [] else RowsUpTo(counts, i - 1) + RowUpTo(counts, i - 1, |counts|)
  }

  /** Every test of a pass over a registry with these circle counts; the outer loop runs over all
      entries but the last. */
  function AllTests(counts: seq<nat>): seq<Test>
  {
    RowsUpTo(counts, if |counts| == 0 then 0 else |counts| - 1)
  }

  /** The tests the pass makes: each unordered pair of registry positions i < j, and each pair of
      their circles. Nothing else: no entity is paired with its own position. */
  predicate ValidTest(counts: seq<nat>, t: Test)
  {
    t.i < t.j < |counts| && t.k < counts[t.i] && t.l < counts[t.j]
  }

  lemma {:induction false} LineAt(i: nat, j: nat, k: nat, l: nat)
    ensures forall p :: 0 <= p < l ==> Line(i, j, k, l)[p] == Test(i, j, k, p)
    decreases l
  {
    if l > 0 {
      LineAt(i, j, k, l - 1);
      assert forall p :: 0 <= p < l - 1 ==> Line(i, j, k, l)[p] == Line(i, j, k, l - 1)[p];
    }
  }

  /** Membership in a sequence that splits into a + b. */
  lemma MembersSplit(a: seq<Test>, b: seq<Test>)
    ensures forall t {:trigger t in a + b} :: t in a + b <==> t in a || t in b
  {
  }

  lemma {:induction false} BlockMembers(i: nat, j: nat, cl: nat, k: nat)
    ensures forall t {:trigger t in Block(i, j, cl, k)} :: t in Block(i, j, cl, k) <==> t.i == i && t.j == j && t.k < k && t.l < cl
    decreases k
  {
    if k > 0 {
      var line := Line(i, j, k - 1, cl);
      BlockMembers(i, j, cl, k - 1);
      LineAt(i, j, k - 1, cl);
      MembersSplit(Block(i, j, cl, k - 1), line);
      forall t: Test | t.i == i && t.j == j && t.k == k - 1 && t.l < cl ensures t in line {
        assert line[t.l] == t;
      }
    }
  }

  lemma {:induction false} RowMembers(counts: seq<nat>, i: nat, j: nat)
    requires i < |counts| && j <= |counts|
    ensures forall t {:trigger t in RowUpTo(counts, i, j)} :: t in RowUpTo(counts, i, j) <==>
      t.i == i && i < t.j < j && t.k < counts[i] && t.l < counts[t.j]
    decreases j
  {
    if j > i + 1 {
      var front, block := RowUpTo(counts, i, j - 1), Block(i, j - 1, counts[j - 1], counts[i]);
      RowMembers(counts, i, j - 1);
      BlockMembers(i, j - 1, counts[j - 1], counts[i]);
      MembersSplit(front, block);
      assert RowUpTo(counts, i, j) == front + block;
    }
  }

  lemma {:induction false} RowsMembers(counts: seq<nat>, i: nat)
    requires i <= |counts|
    ensures forall t {:trigger t in RowsUpTo(counts, i)} :: t in RowsUpTo(counts, i) <==> t.i < i && ValidTest(counts, t)
    decreases i
  {
    if i > 0 {
      var front, row := RowsUpTo(counts, i - 1), RowUpTo(counts, i - 1, |counts|);
      RowsMembers(counts, i - 1);
      RowMembers(counts, i - 1, |counts|);
      MembersSplit(front, row);
      assert RowsUpTo(counts, i) == front + row;
    }
  }

  /** The pass makes exactly the valid tests. */
  lemma AllTestsMembers(counts: seq<nat>)
    ensures forall t :: t in AllTests(counts) <==> ValidTest(counts, t)
  {
    RowsMembers(counts, if |counts| == 0 then 0 else |counts| - 1);
  }

  /** A sequence that splits into increasing a and b, every element of a before every element of
      b, is increasing. */
  lemma IncreasingSplit(whole: seq<Test>, a: seq<Test>, b: seq<Test>)
    requires whole == a + b
    requires Increasing(a) && Increasing(b)
    requires forall p, q :: 0 <= p < |a| && 0 <= q < |b| ==> Before(a[p], b[q])
    ensures Increasing(whole)
  {
    forall p, q | 0 <= p < q < |whole| ensures Before(whole[p], whole[q]) {
      if q < |a| {
        assert whole[p] == a[p] && whole[q] == a[q];
      } else if p >= |a| {
        assert whole[p] == b[p - |a|] && whole[q] == b[q - |a|];
      } else {
        assert whole[p] == a[p] && whole[q] == b[q - |a|];
      }
    }
  }

  lemma LineIncreasing(i: nat, j: nat, k: nat, l: nat)
    ensures Increasing(Line(i, j, k, l))
  {
    LineAt(i, j, k, l);
  }

  /** What the order of the loops needs to know of each level: which entities and circles its tests
      come from. */
  lemma BlockKey(i: nat, j: nat, cl: nat, k: nat)
    ensures forall t {:trigger t in Block(i, j, cl, k)} :: t in Block(i, j, cl, k) ==> t.i == i && t.j == j && t.k < k
  {
    BlockMembers(i, j, cl, k);
  }

  lemma RowKey(counts: seq<nat>, i: nat, j: nat)
    requires i < |counts| && j <= |counts|
    ensures forall t {:trigger t in RowUpTo(counts, i, j)} :: t in RowUpTo(counts, i, j) ==> t.i == i && t.j < j
  {
    RowMembers(counts, i, j);
  }

  lemma RowsKey(counts: seq<nat>, i: nat)
    requires i <= |counts|
    ensures forall t {:trigger t in RowsUpTo(counts, i)} :: t in RowsUpTo(counts, i) ==> t.i < i
  {
    RowsMembers(counts, i);
  }

  /** A block that splits into the lines of the circles before k and the line of circle k. */
  lemma BlockSplit(a: seq<Test>, b: seq<Test>, i: nat, j: nat, k: nat)
    requires Increasing(a) && Increasing(b)
    requires forall t {:trigger t in a} :: t in a ==> t.i == i && t.j == j && t.k < k
    requires forall q :: 0 <= q < |b| ==> b[q].i == i && b[q].j == j && b[q].k == k
    ensures Increasing(a + b)
  {
    forall p, q | 0 <= p < |a| && 0 <= q < |b| ensures Before(a[p], b[q]) {
      assert a[p] in a;
    }
    IncreasingSplit(a + b, a, b);
  }

  /** A row that splits into the blocks of the entities before j and the block of entity j. */
  lemma RowSplit(a: seq<Test>, b: seq<Test>, i: nat, j: nat)
    requires Increasing(a) && Increasing(b)
    requires forall t {:trigger t in a} :: t in a ==> t.i == i && t.j < j
    requires forall t {:trigger t in b} :: t in b ==> t.i == i && t.j == j
    ensures Increasing(a + b)
  {
    forall p, q | 0 <= p < |a| && 0 <= q < |b| ensures Before(a[p], b[q]) {
      assert a[p] in a && b[q] in b;
    }
    IncreasingSplit(a + b, a, b);
  }

  /** The tests of the outer turns before i, then those of turn i. */
  lemma RowsSplit(a: seq<Test>, b: seq<Test>, i: nat)
    requires Increasing(a) && Increasing(b)
    requires forall t {:trigger t in a} :: t in a ==> t.i < i
    requires forall t {:trigger t in b} :: t in b ==> t.i == i
    ensures Increasing(a + b)
  {
    forall p, q | 0 <= p < |a| && 0 <= q < |b| ensures Before(a[p], b[q]) {
      assert a[p] in a && b[q] in b;
    }
    IncreasingSplit(a + b, a, b);
  }

  lemma {:induction false} BlockIncreasing(i: nat, j: nat, cl: nat, k: nat)
    ensures Increasing(Block(i, j, cl, k))
    decreases k
  {
    if k > 0 {
      BlockIncreasing(i, j, cl, k - 1);
      BlockKey(i, j, cl, k - 1);
      LineIncreasing(i, j, k - 1, cl);
      LineAt(i, j, k - 1, cl);
      BlockSplit(Block(i, j, cl, k - 1), Line(i, j, k - 1, cl), i, j, k - 1);
    }
  }

  /** One more block keeps a row in order. */
  lemma RowIncreasingStep(counts: seq<nat>, i: nat, m: nat)
    requires i < m < |counts| && Increasing(RowUpTo(counts, i, m))
    ensures Increasing(RowUpTo(counts, i, m) + Block(i, m, counts[m], counts[i]))
  {
    RowKey(counts, i, m);
    BlockIncreasing(i, m, counts[m], counts[i]);
    BlockKey(i, m, counts[m], counts[i]);
    RowSplit(RowUpTo(counts, i, m), Block(i, m, counts[m], counts[i]), i, m);
  }

  lemma {:induction false} RowIncreasing(counts: seq<nat>, i: nat, j: nat)
    requires i < |counts| && j <= |counts|
    ensures Increasing(RowUpTo(counts, i, j))
    decreases j
  {
    if j > i + 1 {
      RowIncreasing(counts, i, j - 1);
      RowIncreasingStep(counts, i, j - 1);
    }
  }

  /** One more turn of the outer loop keeps the tests in order. */
  lemma RowsIncreasingStep(counts: seq<nat>, i: nat)
    requires i < |counts| && Increasing(RowsUpTo(counts, i))
    ensures Increasing(RowsUpTo(counts, i) + RowUpTo(counts, i, |counts|))
  {
    RowsKey(counts, i);
    RowIncreasing(counts, i, |counts|);
    RowKey(counts, i, |counts|);
    RowsSplit(RowsUpTo(counts, i), RowUpTo(counts, i, |counts|), i);
  }

  lemma {:induction false} RowsIncreasing(counts: seq<nat>, i: nat)
    requires i <= |counts|
    ensures Increasing(RowsUpTo(counts, i))
    decreases i
  {
    if i > 0 {
      RowsIncreasing(counts, i - 1);
      RowsIncreasingStep(counts, i - 1);
    }
  }

  /** The tests come in the loop order, so no test (and no pair of entities) is made twice. */
  lemma AllTestsIncreasing(counts: seq<nat>)
    ensures Increasing(AllTests(counts))
    ensures forall p, q :: 0 <= p < q < |AllTests(counts)| ==> AllTests(counts)[p] != AllTests(counts)[q]
  {
    RowsIncreasing(counts, if |counts| == 0 then 0 else |counts| - 1);
  }

  // ---------------------------------------------------------------------------------------------
  // What the pass does, as a function of the tests it makes

  /** The state of a pass: its hits so far, in order, and the entities that are inactive. Activity
      is a field of the entity, shared by every registry position that holds it. */
  datatype PassState = PassState(hits: seq<Test>, off: set<Entity>)

  predicate InRange(tests: seq<Test>, n: nat)
  {
    forall p :: 0 <= p < |tests| ==> tests[p].i < n && tests[p].j < n
  }

  /** One test: when its circles overlap (t is in `overlap`) and both its entities are active at
      that moment, it is a hit. The hit notifies entity i and then entity j, and each notified
      entity that has a BulletMover (is in `bullets`) deactivates itself. The loops make no test
      outside the registry; such a test is never a hit. */
  function Step(s: PassState, t: Test, overlap: iset<Test>, es: seq<Entity>, bullets: set<Entity>): PassState
  {
    if t.i < |es| && t.j < |es| && t in overlap && es[t.i] !in s.off && es[t.j] !in s.off then
      PassState(s.hits + [t], s.off + ({es[t.i], es[t.j]} * bullets))
    else
      s
  }

  /** The first n tests, in order, from state s. */
  function Run(tests: seq<Test>, n: nat, overlap: iset<Test>, es: seq<Entity>, bullets: set<Entity>, s: PassState): PassState
    requires n <= |tests|
    decreases n
  {
    if n == 0 then s else Step(Run(tests, n - 1, overlap, es, bullets, s), tests[n - 1], overlap, es, bullets)
  }

  /** A run only adds hits within the registry, and never reactivates an entity. */
  lemma {:induction false} RunGrows(tests: seq<Test>, n: nat, overlap: iset<Test>, es: seq<Entity>, bullets: set<Entity>, s: PassState)
    requires n <= |tests| && InRange(s.hits, |es|)
    ensures InRange(Run(tests, n, overlap, es, bullets, s).hits, |es|)
    ensures s.off <= Run(tests, n, overlap, es, bullets, s).off
    decreases n
  {
    if n > 0 {
      RunGrows(tests, n - 1, overlap, es, bullets, s);
      var r := Run(tests, n - 1, overlap, es, bullets, s);
      var t := tests[n - 1];
      if t.i < |es| && t.j < |es| && t in overlap && es[t.i] !in r.off && es[t.j] !in r.off {
        InRangeAppend(r.hits, [t], |es|);
      }
    }
  }

  /** The pass over the first n tests, from no hit and the entities `off` inactive. */
  function Pass(tests: seq<Test>, n: nat, overlap: iset<Test>, es: seq<Entity>, bullets: set<Entity>, off: set<Entity>): (r: PassState)
    requires n <= |tests|
    ensures InRange(r.hits, |es|)
    ensures off <= r.off
  {
    RunGrows(tests, n, overlap, es, bullets, PassState([], off));
    Run(tests, n, overlap, es, bullets, PassState([], off))
  }

  lemma InRangeAppend(a: seq<Test>, b: seq<Test>, n: nat)
    requires InRange(a, n) && InRange(b, n)
    ensures InRange(a + b, n)
  {
    forall p | 0 <= p < |a + b| ensures (a + b)[p].i < n && (a + b)[p].j < n {
      if p < |a| {
        assert (a + b)[p] == a[p];
      } else {
        assert (a + b)[p] == b[p - |a|];
      }
    }
  }

  /** Whether test t concerns entity e (at whichever of its positions). */
  predicate Touches(t: Test, es: seq<Entity>, e: Entity)
    requires t.i < |es| && t.j < |es|
  {
    es[t.i] == e || es[t.j] == e
  }

  /** Whether some hit concerns entity e. */
  predicate Involved(hits: seq<Test>, es: seq<Entity>, e: Entity)
    requires InRange(hits, |es|)
  {
    exists p :: 0 <= p < |hits| && Touches(hits[p], es, e)
  }

  lemma InvolvedAppend(hits: seq<Test>, t: Test, es: seq<Entity>, e: Entity)
    requires InRange(hits, |es|) && t.i < |es| && t.j < |es|
    ensures InRange(hits + [t], |es|)
    ensures Involved(hits + [t], es, e) <==> Involved(hits, es, e) || Touches(t, es, e)
  {
    var h := hits + [t];
    InRangeAppend(hits, [t], |es|);
    assert h[|hits|] == t;
    if Involved(hits, es, e) {
      var p :| 0 <= p < |hits| && Touches(hits[p], es, e);
      assert h[p] == hits[p];
    }
    if Involved(h, es, e) && !Touches(t, es, e) {
      var p :| 0 <= p < |h| && Touches(h[p], es, e);
      assert h[p] == hits[p];
    }
  }

  /** The inactive entities of a pass, in terms of its hits so far: those inactive at the start and
      the bullets some hit concerned. */
  predicate OffMatch(off: set<Entity>, off0: set<Entity>, es: seq<Entity>, bullets: set<Entity>, hits: seq<Test>)
    requires InRange(hits, |es|)
  {
    forall e :: e in off + off0 + bullets ==> (e in off <==> e in off0 || (e in bullets && Involved(hits, es, e)))
  }

  lemma OffStep(off: set<Entity>, off0: set<Entity>, es: seq<Entity>, bullets: set<Entity>, hits: seq<Test>, t: Test)
    requires InRange(hits, |es|) && t.i < |es| && t.j < |es|
    requires OffMatch(off, off0, es, bullets, hits)
    ensures InRange(hits + [t], |es|)
    ensures OffMatch(off + ({es[t.i], es[t.j]} * bullets), off0, es, bullets, hits + [t])
  {
    var off' := off + ({es[t.i], es[t.j]} * bullets);
    forall e | e in off' + off0 + bullets ensures e in off' <==> e in off0 || (e in bullets && Involved(hits + [t], es, e)) {
      InvolvedAppend(hits, t, es, e);
    }
  }

  /** Every hit is one of the first n tests, and its circles overlap. */
  lemma {:induction false} PassHitsAreTests(tests: seq<Test>, n: nat, overlap: iset<Test>, es: seq<Entity>, bullets: set<Entity>, off: set<Entity>)
    requires n <= |tests|
    ensures forall p :: 0 <= p < |Pass(tests, n, overlap, es, bullets, off).hits| ==>
      Pass(tests, n, overlap, es, bullets, off).hits[p] in overlap &&
      exists q :: 0 <= q < n && tests[q] == Pass(tests, n, overlap, es, bullets, off).hits[p]
    decreases n
  {
    if n > 0 {
      PassHitsAreTests(tests, n - 1, overlap, es, bullets, off);
      var s := Pass(tests, n - 1, overlap, es, bullets, off);
      var r := Pass(tests, n, overlap, es, bullets, off);
      forall p | 0 <= p < |r.hits| ensures r.hits[p] in overlap && exists q :: 0 <= q < n && tests[q] == r.hits[p] {
        if p < |s.hits| {
          var q :| 0 <= q < n - 1 && tests[q] == s.hits[p];
          assert r.hits[p] == s.hits[p];
          assert tests[q] == r.hits[p];
        } else {
          assert tests[n - 1] == r.hits[p];
        }
      }
    }
  }

  /** Both entities of every hit were active when the pass began. */
  lemma {:induction false} PassActiveAtStart(tests: seq<Test>, n: nat, overlap: iset<Test>, es: seq<Entity>, bullets: set<Entity>, off: set<Entity>)
    requires n <= |tests|
    ensures var r := Pass(tests, n, overlap, es, bullets, off);
      forall p :: 0 <= p < |r.hits| ==> es[r.hits[p].i] !in off && es[r.hits[p].j] !in off
    decreases n
  {
    if n > 0 {
      PassActiveAtStart(tests, n - 1, overlap, es, bullets, off);
      var s := Pass(tests, n - 1, overlap, es, bullets, off);
      var r := Pass(tests, n, overlap, es, bullets, off);
      forall p | 0 <= p < |r.hits| ensures es[r.hits[p].i] !in off && es[r.hits[p].j] !in off {
        if p < |s.hits| {
          assert r.hits[p] == s.hits[p];
        } else {
          assert r.hits[p] == tests[n - 1];
        }
      }
    }
  }

  /** The hits come in the order of the tests. */
  lemma {:induction false} PassHitsIncreasing(tests: seq<Test>, n: nat, overlap: iset<Test>, es: seq<Entity>, bullets: set<Entity>, off: set<Entity>)
    requires n <= |tests| && Increasing(tests)
    ensures Increasing(Pass(tests, n, overlap, es, bullets, off).hits)
    decreases n
  {
    if n > 0 {
      PassHitsIncreasing(tests, n - 1, overlap, es, bullets, off);
      PassHitsAreTests(tests, n - 1, overlap, es, bullets, off);
      var s := Pass(tests, n - 1, overlap, es, bullets, off);
      var t := tests[n - 1];
      if t.i < |es| && t.j < |es| && t in overlap && es[t.i] !in s.off && es[t.j] !in s.off {
        forall p | 0 <= p < |s.hits| ensures Before(s.hits[p], t) {
          var q :| 0 <= q < n - 1 && tests[q] == s.hits[p];
        }
        IncreasingSplit(s.hits + [t], s.hits, [t]);
      }
    }
  }

  /** At any point of a pass an entity is inactive exactly when it was inactive at the start or it
      is a bullet some hit so far concerned. */
  lemma {:induction false} PassOff(tests: seq<Test>, n: nat, overlap: iset<Test>, es: seq<Entity>, bullets: set<Entity>, off: set<Entity>)
    requires n <= |tests|
    ensures var r := Pass(tests, n, overlap, es, bullets, off);
      OffMatch(r.off, off, es, bullets, r.hits)
    decreases n
  {
    if n > 0 {
      PassOff(tests, n - 1, overlap, es, bullets, off);
      var s := Pass(tests, n - 1, overlap, es, bullets, off);
      var t := tests[n - 1];
      if t.i < |es| && t.j < |es| && t in overlap && es[t.i] !in s.off && es[t.j] !in s.off {
        OffStep(s.off, off, es, bullets, s.hits, t);
      }
    }
  }

  /** Activity is re-read for each test: once a hit has concerned a bullet, no later hit of the
      same pass concerns it again. */
  lemma {:induction false} PassBulletHitOnce(tests: seq<Test>, n: nat, overlap: iset<Test>, es: seq<Entity>, bullets: set<Entity>, off: set<Entity>)
    requires n <= |tests|
    ensures var r := Pass(tests, n, overlap, es, bullets, off);
      forall p, q, e :: 0 <= p < q < |r.hits| && e in bullets && Touches(r.hits[p], es, e) ==> !Touches(r.hits[q], es, e)
    decreases n
  {
    if n > 0 {
      PassBulletHitOnce(tests, n - 1, overlap, es, bullets, off);
      PassOff(tests, n - 1, overlap, es, bullets, off);
      var s := Pass(tests, n - 1, overlap, es, bullets, off);
      var t := tests[n - 1];
      var r := Pass(tests, n, overlap, es, bullets, off);
      if t.i < |es| && t.j < |es| && t in overlap && es[t.i] !in s.off && es[t.j] !in s.off {
        forall p, q, e | 0 <= p < q < |r.hits| && e in bullets && Touches(r.hits[p], es, e)
          ensures !Touches(r.hits[q], es, e)
        {
          assert r.hits[p] == s.hits[p];
          if q < |s.hits| {
            assert r.hits[q] == s.hits[q];
          } else {
            assert r.hits[q] == t;
            assert Involved(s.hits, es, e);
          }
        }
      }
    }
  }

  /** Nothing is missed: a test among the first n whose circles overlap and whose entities are
      both still active after them was a hit. */
  lemma {:induction false} PassComplete(tests: seq<Test>, n: nat, overlap: iset<Test>, es: seq<Entity>, bullets: set<Entity>, off: set<Entity>, q: nat)
    requires n <= |tests| && q < n && tests[q] in overlap && tests[q].i < |es| && tests[q].j < |es|
    requires es[tests[q].i] !in Pass(tests, n, overlap, es, bullets, off).off
    requires es[tests[q].j] !in Pass(tests, n, overlap, es, bullets, off).off
    ensures tests[q] in Pass(tests, n, overlap, es, bullets, off).hits
    decreases n
  {
    if q < n - 1 {
      PassComplete(tests, n - 1, overlap, es, bullets, off, q);
    }
  }

  /** Every hit of a pass over a registry is a test between two positions i < j that both have
      circles; the hits come in the loop order, so no pair of circles is hit twice. */
  lemma PassOverRegistry(counts: seq<nat>, overlap: iset<Test>, es: seq<Entity>, bullets: set<Entity>, off: set<Entity>)
    ensures var r := Pass(AllTests(counts), |AllTests(counts)|, overlap, es, bullets, off);
      forall p :: 0 <= p < |r.hits| ==> ValidTest(counts, r.hits[p]) && r.hits[p] in overlap
    ensures Increasing(Pass(AllTests(counts), |AllTests(counts)|, overlap, es, bullets, off).hits)
  {
    AllTestsMembers(counts);
    AllTestsIncreasing(counts);
    var tests := AllTests(counts);
    PassHitsAreTests(tests, |tests|, overlap, es, bullets, off);
    PassHitsIncreasing(tests, |tests|, overlap, es, bullets, off);
    var r := Pass(tests, |tests|, overlap, es, bullets, off);
    forall p | 0 <= p < |r.hits| ensures ValidTest(counts, r.hits[p]) {
      var q :| 0 <= q < |tests| && tests[q] == r.hits[p];
      assert tests[q] in tests;
    }
  }

  // ---------------------------------------------------------------------------------------------
  // The pass, loop by loop: each level runs the level below it over its range, in order

  /** The innermost loop: circle k of entity i against the first `l` circles of entity j. */
  function RunLine(i: nat, j: nat, k: nat, l: nat, overlap: iset<Test>, es: seq<Entity>, bullets: set<Entity>, s: PassState): PassState
    decreases l
  {
    if l == 0 then s else Step(RunLine(i, j, k, l - 1, overlap, es, bullets, s), Test(i, j, k, l - 1), overlap, es, bullets)
  }

  /** The first `k` circles of entity i, each against all `cl` circles of entity j. */
  function RunBlock(i: nat, j: nat, cl: nat, k: nat, overlap: iset<Test>, es: seq<Entity>, bullets: set<Entity>, s: PassState): PassState
    decreases k
  {
    if k == 0 then s else RunLine(i, j, k - 1, cl, overlap, es, bullets, RunBlock(i, j, cl, k - 1, overlap, es, bullets, s))
  }

  /** Entity i against the entities strictly between i and j. */
  function RunRow(counts: seq<nat>, i: nat, j: nat, overlap: iset<Test>, es: seq<Entity>, bullets: set<Entity>, s: PassState): PassState
    requires i < |counts| && j <= |counts|
    decreases j
  {
    if j <= i + 1 then s
    else RunBlock(i, j - 1, counts[j - 1], counts[i], overlap, es, bullets, RunRow(counts, i, j - 1, overlap, es, bullets, s))
  }

  /** The first `i` turns of the outer loop. */
  function RunRows(counts: seq<nat>, i: nat, overlap: iset<Test>, es: seq<Entity>, bullets: set<Entity>, s: PassState): PassState
    requires i <= |counts|
    decreases i
  {
    if i == 0 then s else RunRow(counts, i - 1, |counts|, overlap, es, bullets, RunRows(counts, i - 1, overlap, es, bullets, s))
  }

  /** A run reads only the tests it makes. */
  lemma {:induction false} RunPrefix(x: seq<Test>, y: seq<Test>, n: nat, overlap: iset<Test>, es: seq<Entity>, bullets: set<Entity>, s: PassState)
    requires n <= |x| && n <= |y|
    requires forall q :: 0 <= q < n ==> x[q] == y[q]
    ensures Run(x, n, overlap, es, bullets, s) == Run(y, n, overlap, es, bullets, s)
    decreases n
  {
    if n > 0 {
      RunPrefix(x, y, n - 1, overlap, es, bullets, s);
    }
  }

  /** Running a + b is running a, then b. */
  lemma {:induction false} RunAppend(a: seq<Test>, b: seq<Test>, n: nat, overlap: iset<Test>, es: seq<Entity>, bullets: set<Entity>, s: PassState)
    requires n <= |b|
    ensures Run(a + b, |a| + n, overlap, es, bullets, s) == Run(b, n, overlap, es, bullets, Run(a, |a|, overlap, es, bullets, s))
    decreases n
  {
    if n == 0 {
      assert forall q :: 0 <= q < |a| ==> (a + b)[q] == a[q];
      RunPrefix(a + b, a, |a|, overlap, es, bullets, s);
    } else {
      RunAppend(a, b, n - 1, overlap, es, bullets, s);
      var x := Run(a, |a|, overlap, es, bullets, s);
      assert (a + b)[|a| + n - 1] == b[n - 1];
      assert Run(a + b, |a| + n, overlap, es, bullets, s)
          == Step(Run(a + b, |a| + n - 1, overlap, es, bullets, s), b[n - 1], overlap, es, bullets);
      assert Run(b, n, overlap, es, bullets, x) == Step(Run(b, n - 1, overlap, es, bullets, x), b[n - 1], overlap, es, bullets);
    }
  }

  /** Running all of a + b is running all of a, then all of b. */
  lemma RunConcat(a: seq<Test>, b: seq<Test>, overlap: iset<Test>, es: seq<Entity>, bullets: set<Entity>, s: PassState)
    ensures Run(a + b, |a + b|, overlap, es, bullets, s) == Run(b, |b|, overlap, es, bullets, Run(a, |a|, overlap, es, bullets, s))
  {
    RunAppend(a, b, |b|, overlap, es, bullets, s);
  }

  lemma {:induction false} RunLineIsRun(i: nat, j: nat, k: nat, l: nat, overlap: iset<Test>, es: seq<Entity>, bullets: set<Entity>, s: PassState)
    ensures RunLine(i, j, k, l, overlap, es, bullets, s) == Run(Line(i, j, k, l), l, overlap, es, bullets, s)
    decreases l
  {
    LineAt(i, j, k, l);
    if l > 0 {
      RunLineIsRun(i, j, k, l - 1, overlap, es, bullets, s);
      LineAt(i, j, k, l - 1);
      RunPrefix(Line(i, j, k, l), Line(i, j, k, l - 1), l - 1, overlap, es, bullets, s);
    }
  }

  lemma {:induction false} RunBlockIsRun(i: nat, j: nat, cl: nat, k: nat, overlap: iset<Test>, es: seq<Entity>, bullets: set<Entity>, s: PassState)
    ensures RunBlock(i, j, cl, k, overlap, es, bullets, s) == Run(Block(i, j, cl, k), |Block(i, j, cl, k)|, overlap, es, bullets, s)
    decreases k
  {
    if k > 0 {
      RunBlockIsRun(i, j, cl, k - 1, overlap, es, bullets, s);
      var mid := RunBlock(i, j, cl, k - 1, overlap, es, bullets, s);
      RunLineIsRun(i, j, k - 1, cl, overlap, es, bullets, mid);
      RunSplit(Block(i, j, cl, k - 1), Line(i, j, k - 1, cl),
               overlap, es, bullets, s, mid, RunBlock(i, j, cl, k, overlap, es, bullets, s));
    }
  }

  /** A run over a sequence that splits into front + block is the run over front, then block. */
  lemma RunSplit(front: seq<Test>, block: seq<Test>, overlap: iset<Test>, es: seq<Entity>,
                   bullets: set<Entity>, s: PassState, mid: PassState, r: PassState)
    requires mid == Run(front, |front|, overlap, es, bullets, s)
    requires r == Run(block, |block|, overlap, es, bullets, mid)
    ensures r == Run(front + block, |front + block|, overlap, es, bullets, s)
  {
    RunConcat(front, block, overlap, es, bullets, s);
  }

  /** One more block of a row, as a run over the tests. */
  lemma RunRowStep(counts: seq<nat>, i: nat, m: nat, overlap: iset<Test>, es: seq<Entity>, bullets: set<Entity>, s: PassState)
    requires i < m < |counts|
    requires RunRow(counts, i, m, overlap, es, bullets, s) == Run(RowUpTo(counts, i, m), |RowUpTo(counts, i, m)|, overlap, es, bullets, s)
    ensures RunBlock(i, m, counts[m], counts[i], overlap, es, bullets, RunRow(counts, i, m, overlap, es, bullets, s))
         == Run(RowUpTo(counts, i, m) + Block(i, m, counts[m], counts[i]),
                |RowUpTo(counts, i, m) + Block(i, m, counts[m], counts[i])|, overlap, es, bullets, s)
  {
    var mid := RunRow(counts, i, m, overlap, es, bullets, s);
    RunBlockIsRun(i, m, counts[m], counts[i], overlap, es, bullets, mid);
    RunSplit(RowUpTo(counts, i, m), Block(i, m, counts[m], counts[i]), overlap, es, bullets, s, mid,
             RunBlock(i, m, counts[m], counts[i], overlap, es, bullets, mid));
  }

  lemma {:induction false} RunRowIsRun(counts: seq<nat>, i: nat, j: nat, overlap: iset<Test>, es: seq<Entity>, bullets: set<Entity>, s: PassState)
    requires i < |counts| && j <= |counts|
    ensures RunRow(counts, i, j, overlap, es, bullets, s) == Run(RowUpTo(counts, i, j), |RowUpTo(counts, i, j)|, overlap, es, bullets, s)
    decreases j
  {
    if j > i + 1 {
      RunRowIsRun(counts, i, j - 1, overlap, es, bullets, s);
      RunRowStep(counts, i, j - 1, overlap, es, bullets, s);
    }
  }

  lemma {:induction false} RunRowsIsRun(counts: seq<nat>, i: nat, overlap: iset<Test>, es: seq<Entity>, bullets: set<Entity>, s: PassState)
    requires i <= |counts|
    ensures RunRows(counts, i, overlap, es, bullets, s) == Run(RowsUpTo(counts, i), |RowsUpTo(counts, i)|, overlap, es, bullets, s)
    decreases i
  {
    if i > 0 {
      RunRowsIsRun(counts, i - 1, overlap, es, bullets, s);
      var front := RowsUpTo(counts, i - 1);
      var row := RowUpTo(counts, i - 1, |counts|);
      var mid := RunRows(counts, i - 1, overlap, es, bullets, s);
      RunRowIsRun(counts, i - 1, |counts|, overlap, es, bullets, mid);
      var r := RunRows(counts, i, overlap, es, bullets, s);
      assert r == RunRow(counts, i - 1, |counts|, overlap, es, bullets, mid);
      RunSplit(front, row, overlap, es, bullets, s, mid, r);
      assert RowsUpTo(counts, i) == front + row;
    }
  }

  /** The nested loops make the tests of AllTests, in its order: running them from no hit and the
      entities `off` inactive is the pass over all tests. */
  lemma RunRowsIsPass(counts: seq<nat>, overlap: iset<Test>, es: seq<Entity>, bullets: set<Entity>, off: set<Entity>)
    ensures RunRows(counts, if |counts| == 0 then 0 else |counts| - 1, overlap, es, bullets, PassState([], off))
         == Pass(AllTests(counts), |AllTests(counts)|, overlap, es, bullets, off)
  {
    RunRowsIsRun(counts, if |counts| == 0 then 0 else |counts| - 1, overlap, es, bullets, PassState([], off));
  }

  // ---------------------------------------------------------------------------------------------
  // What the pass reads: for each registry position, a view of its entity

  /** A collision circle as the pass sees it: its centre's coordinates and its radius. */
  datatype Disc = Disc(x: real, y: real, radius: real)

  /** What the pass reads of an entity and never changes: whether it has a BulletMover, the
      Animators its VulnerableToBullets components hold, its tag and its circles. */
  datatype View = View(bullet: bool, targets: set<Animator>, tag: string, discs: seq<Disc>)

  /** Circles k of i and l of j overlap. */
  predicate OverlapAt(views: seq<View>, t: Test)
    requires ValidTest(Counts(views), t)
  {
    var d1, d2 := views[t.i].discs[t.k], views[t.j].discs[t.l];
    Overlap(d1.x, d1.y, d1.radius, d2.x, d2.y, d2.radius)
  }

  /** The tests of a pass whose circles overlap. */
  ghost function Overlaps(views: seq<View>): iset<Test>
  {
    iset t: Test | ValidTest(Counts(views), t) && OverlapAt(views, t)
  }

  function Counts(views: seq<View>): (r: seq<nat>)
    ensures |r| == |views| && forall x {:trigger r[x]} :: 0 <= x < |views| ==> r[x] == |views[x].discs|
  {
    if views == [] then [] else [|views[0].discs|] + Counts(views[1..])
  }

  /** `bullets` holds the entity at position x exactly when its view has a BulletMover. */
  predicate BulletsMatch(es: seq<Entity>, views: seq<View>, bullets: set<Entity>)
  {
    |views| == |es| && forall x :: 0 <= x < |es| ==> (es[x] in bullets <==> views[x].bullet)
  }

  /** Every Animator a collision may change. */
  function AllTargets(views: seq<View>): set<Animator>
  {
    set x, a | 0 <= x < |views| && a in views[x].targets :: a
  }

  /** Whether hit t switches the Animator `a` to "destroy": one entity of t is tagged "bullet" and
      the other holds `a` in a VulnerableToBullets component. */
  predicate DestroyedBy(a: Animator, views: seq<View>, t: Test)
    requires t.i < |views| && t.j < |views|
  {
    || (a in views[t.i].targets && views[t.j].tag == "bullet")
    || (a in views[t.j].targets && views[t.i].tag == "bullet")
  }

  /** Whether some hit switched the Animator `a` to "destroy". */
  predicate Destroyed(a: Animator, views: seq<View>, hits: seq<Test>)
    requires InRange(hits, |views|)
  {
    exists p :: 0 <= p < |hits| && DestroyedBy(a, views, hits[p])
  }

  lemma DestroyedAppend(a: Animator, views: seq<View>, hits: seq<Test>, t: Test)
    requires InRange(hits, |views|) && t.i < |views| && t.j < |views|
    ensures InRange(hits + [t], |views|)
    ensures Destroyed(a, views, hits + [t]) <==> Destroyed(a, views, hits) || DestroyedBy(a, views, t)
  {
    var h := hits + [t];
    assert h[|hits|] == t;
    if Destroyed(a, views, hits) {
      var p :| 0 <= p < |hits| && DestroyedBy(a, views, hits[p]);
      assert h[p] == hits[p];
    }
    if Destroyed(a, views, h) && !DestroyedBy(a, views, t) {
      var p :| 0 <= p < |h| && DestroyedBy(a, views, h[p]);
      assert h[p] == hits[p];
    }
  }

  /** What the Animators show after the hits: "destroy" from `now` for every one some hit
      switched, and what `before` recorded for every other one. */
  function ShownAfter(views: seq<View>, hits: seq<Test>, now: int, before: map<Animator, (string, int)>): map<Animator, (string, int)>
    requires InRange(hits, |views|) && AllTargets(views) <= before.Keys
  {
    map a | a in AllTargets(views) :: if Destroyed(a, views, hits) then ("destroy", now) else before[a]
  }
}


/** The collision pass as the program runs it, on the registry in the heap. */
module CollisionPass {
  import opened Geometry
  import opened Components
  import opened Entities
  import opened Collision

  function EntitySet(es: seq<Entity>): set<Entity>
  {
    set e | e in es
  }

  /** The entities of the registry that are inactive. */
  function InactiveOf(es: seq<Entity>): (r: set<Entity>)
    reads EntitySet(es)`active
    ensures forall x :: 0 <= x < |es| ==> (es[x] in r <==> !es[x].active)
  {
    set e | e in EntitySet(es) && !e.active
  }

  /** The entities of the registry that have a BulletMover. */
  function BulletsOf(es: seq<Entity>): (r: set<Entity>)
    reads EntitySet(es)`components
    ensures forall x :: 0 <= x < |es| ==> (es[x] in r <==> HasKind(es[x].components, BulletMoverKind))
  {
    set e | e in EntitySet(es) && HasKind(e.components, BulletMoverKind)
  }

  ghost function Discs(cs: seq<Circle>): (r: seq<Disc>)
    reads (set c | c in cs)`center, (set c | c in cs :: c.center)`x, (set c | c in cs :: c.center)`y
    ensures |r| == |cs| && forall k {:trigger r[k]} :: 0 <= k < |cs| ==> r[k] == Disc(cs[k].center.x, cs[k].center.y, cs[k].radius)
  {
    if cs == [] then [] else [Disc(cs[0].center.x, cs[0].center.y, cs[0].radius)] + Discs(cs[1..])
  }

  ghost function ViewOf(e: Entity): View
    reads e`components, e`tag, e`collisions, (set c | c in e.collisions)`center
    reads (set c | c in e.collisions :: c.center)`x, (set c | c in e.collisions :: c.center)`y
  {
    View(HasKind(e.components, BulletMoverKind), TargetsIn(e.components), e.tag, Discs(e.collisions))
  }

  ghost function CentersOf(es: set<Entity>): set<Vec2>
    reads es`collisions, CirclesOf(es)`center
  {
    set c | c in CirclesOf(es) :: c.center
  }

  /** The views of the registry, position by position. */
  ghost function Views(es: seq<Entity>): (r: seq<View>)
    reads EntitySet(es)`components, EntitySet(es)`tag, EntitySet(es)`collisions, CirclesOf(EntitySet(es))`center
    reads CentersOf(EntitySet(es))`x, CentersOf(EntitySet(es))`y
    ensures |r| == |es| && forall x {:trigger r[x]} :: 0 <= x < |es| ==> r[x] == ViewOf(es[x])
  {
    if es == [] then []
    else
      assert es[0] in EntitySet(es);
      assert forall c :: c in es[0].collisions ==> c in CirclesOf(EntitySet(es));
      assert EntitySet(es[1..]) <= EntitySet(es);
      [ViewOf(es[0])] + Views(es[1..])
  }

  /** Entity e still has the components and the tag `v` recorded. */
  ghost predicate KindsAt(e: Entity, v: View)
    reads e`components, e`tag
  {
    v.bullet == HasKind(e.components, BulletMoverKind) && v.targets == TargetsIn(e.components) && v.tag == e.tag
  }

  /** Entity e still shows what `v` recorded; its circles are among `circles` and their centres
      among `centers`. */
  ghost predicate ShowsAt(e: Entity, v: View, circles: set<Circle>, centers: set<Vec2>)
    reads e`components, e`tag, e`collisions, circles`center, centers`x, centers`y
  {
    && KindsAt(e, v)
    && |v.discs| == |e.collisions|
    && forall k :: 0 <= k < |e.collisions| ==>
         && e.collisions[k] in circles && e.collisions[k].center in centers
         && v.discs[k] == Disc(e.collisions[k].center.x, e.collisions[k].center.y, e.collisions[k].radius)
  }

  /** The registry still shows `views`. */
  ghost predicate Shows(es: seq<Entity>, views: seq<View>, circles: set<Circle>, centers: set<Vec2>)
    reads EntitySet(es)`components, EntitySet(es)`tag, EntitySet(es)`collisions, circles`center, centers`x, centers`y
  {
    |views| == |es| && forall x {:trigger ShowsAt(es[x], views[x], circles, centers)} :: 0 <= x < |es| ==> ShowsAt(es[x], views[x], circles, centers)
  }

  /** Entity x has as many circles as its view has discs. */
  lemma ShownCount(es: seq<Entity>, views: seq<View>, circles: set<Circle>, centers: set<Vec2>, x: nat)
    requires Shows(es, views, circles, centers) && x < |es|
    ensures |es[x].collisions| == |views[x].discs|
  {
    assert ShowsAt(es[x], views[x], circles, centers);
  }

  lemma ShowsViews(es: seq<Entity>)
    ensures Shows(es, Views(es), CirclesOf(EntitySet(es)), CentersOf(EntitySet(es)))
  {
    var views, circles, centers := Views(es), CirclesOf(EntitySet(es)), CentersOf(EntitySet(es));
    forall x | 0 <= x < |es| ensures ShowsAt(es[x], views[x], circles, centers) {
      assert es[x] in EntitySet(es);
      forall k | 0 <= k < |es[x].collisions|
        ensures es[x].collisions[k] in circles && es[x].collisions[k].center in centers
      {
        assert es[x].collisions[k] in es[x].collisions;
      }
    }
  }

  /** What the Animators of the registry show. */
  ghost function ShownNow(views: seq<View>): map<Animator, (string, int)>
    reads AllTargets(views)`currentAnimationPlaying, AllTargets(views)`lastFrameChange
  {
    map a | a in AllTargets(views) :: (a.currentAnimationPlaying, a.lastFrameChange)
  }

  lemma AllTargetsOfRegistry(es: seq<Entity>)
    ensures AllTargets(Views(es)) == TargetsOf(EntitySet(es))
  {
    var views := Views(es);
    forall a | a in TargetsOf(EntitySet(es)) ensures a in AllTargets(views) {
      var e :| e in EntitySet(es) && a in TargetsIn(e.components);
      var x :| 0 <= x < |es| && es[x] == e;
      assert a in views[x].targets;
    }
  }

  /** The heap shows pass state s: an entity of the registry is active exactly when s does not
      hold it inactive, and the Animators show "destroy" from `now` exactly where a hit of s
      switched them, and otherwise what they showed before the pass. */
  ghost predicate PassInvariant(es: seq<Entity>, views: seq<View>, bullets: set<Entity>, s: PassState, now: int,
                                before: map<Animator, (string, int)>)
    reads EntitySet(es)`active, AllTargets(views)`currentAnimationPlaying, AllTargets(views)`lastFrameChange
  {
    && BulletsMatch(es, views, bullets) && InRange(s.hits, |es|) && AllTargets(views) <= before.Keys
    && (forall x :: 0 <= x < |es| ==> es[x].active == (es[x] !in s.off))
    && (forall a :: a in AllTargets(views) ==>
          (a.currentAnimationPlaying, a.lastFrameChange) == ShownAfter(views, s.hits, now, before)[a])
  }

  /** `es[x].collision(es[y])`, in terms of the registry; `all` holds the Animators a caller
      tracks. */
  method NotifyOne(es: seq<Entity>, x: nat, y: nat, now: int, ghost off: set<Entity>, ghost bullets: set<Entity>,
                   ghost targets: set<Animator>, ghost all: set<Animator>, ghost views: seq<View>,
                   ghost circles: set<Circle>, ghost centers: set<Vec2>)
    requires x < |es| && y < |es| && Shows(es, views, circles, centers)
    requires forall z :: 0 <= z < |es| ==> es[z].active == (es[z] !in off)
    requires (es[x] in bullets) == HasKind(es[x].components, BulletMoverKind) && targets == TargetsIn(es[x].components)
    requires targets <= all
    modifies EntitySet(es)`active, targets`currentAnimationPlaying, targets`lastFrameChange
    ensures forall z :: 0 <= z < |es| ==> es[z].active == (es[z] !in off + ({es[x]} * bullets))
    ensures es[y].tag == "bullet" ==>
      forall a :: a in targets ==> a.currentAnimationPlaying == "destroy" && a.lastFrameChange == now
    ensures forall a :: a in all && !(a in targets && es[y].tag == "bullet") ==>
      a.currentAnimationPlaying == old(a.currentAnimationPlaying) && a.lastFrameChange == old(a.lastFrameChange)
    ensures Shows(es, views, circles, centers)
  {
    es[x].Collision(es[y], now);
  }

  /** A hit: the first entity is notified, then the second. */
  method NotifyBoth(es: seq<Entity>, t: Test, now: int, ghost off: set<Entity>, ghost bullets: set<Entity>,
                    ghost views: seq<View>, ghost circles: set<Circle>, ghost centers: set<Vec2>)
    requires t.i < |es| && t.j < |es| && |views| == |es| && Shows(es, views, circles, centers)
    requires forall z :: 0 <= z < |es| ==> es[z].active == (es[z] !in off)
    requires KindsAt(es[t.i], views[t.i]) && KindsAt(es[t.j], views[t.j])
    requires (es[t.i] in bullets) == views[t.i].bullet && (es[t.j] in bullets) == views[t.j].bullet
    modifies EntitySet(es)`active, AllTargets(views)`currentAnimationPlaying, AllTargets(views)`lastFrameChange
    ensures forall z :: 0 <= z < |es| ==> es[z].active == (es[z] !in off + ({es[t.i], es[t.j]} * bullets))
    ensures forall a :: a in AllTargets(views) && DestroyedBy(a, views, t) ==>
      a.currentAnimationPlaying == "destroy" && a.lastFrameChange == now
    ensures forall a :: a in AllTargets(views) && !DestroyedBy(a, views, t) ==>
      a.currentAnimationPlaying == old(a.currentAnimationPlaying) && a.lastFrameChange == old(a.lastFrameChange)
    ensures Shows(es, views, circles, centers)
  {
    assert views[t.i].targets <= AllTargets(views) && views[t.j].targets <= AllTargets(views);
    NotifyOne(es, t.i, t.j, now, off, bullets, views[t.i].targets, AllTargets(views), views, circles, centers);
    label Middle:
    NotifyOne(es, t.j, t.i, now, off + ({es[t.i]} * bullets), bullets, views[t.j].targets, AllTargets(views), views, circles, centers);
    assert off + ({es[t.i]} * bullets) + ({es[t.j]} * bullets) == off + ({es[t.i], es[t.j]} * bullets);
    forall a | a in AllTargets(views) && !DestroyedBy(a, views, t)
      ensures a.currentAnimationPlaying == old(a.currentAnimationPlaying) && a.lastFrameChange == old(a.lastFrameChange)
    {
      assert a.currentAnimationPlaying == old@Middle(a.currentAnimationPlaying);
      assert a.lastFrameChange == old@Middle(a.lastFrameChange);
    }
  }

  /** Hit t notifies both of its entities; the Animators then show the hits up to t. */
  method RecordHit(es: seq<Entity>, t: Test, now: int, ghost views: seq<View>, ghost bullets: set<Entity>,
                   ghost circles: set<Circle>, ghost centers: set<Vec2>, ghost before: map<Animator, (string, int)>,
                   ghost s: PassState)
    requires t.i < |es| && t.j < |es| && Shows(es, views, circles, centers)
    requires KindsAt(es[t.i], views[t.i]) && KindsAt(es[t.j], views[t.j])
    requires PassInvariant(es, views, bullets, s, now, before)
    modifies EntitySet(es)`active, AllTargets(views)`currentAnimationPlaying, AllTargets(views)`lastFrameChange
    ensures PassInvariant(es, views, bullets, PassState(s.hits + [t], s.off + ({es[t.i], es[t.j]} * bullets)), now, before)
    ensures Shows(es, views, circles, centers)
  {
    NotifyBoth(es, t, now, s.off, bullets, views, circles, centers);
    InRangeAppend(s.hits, [t], |es|);
    forall a | a in AllTargets(views)
      ensures Destroyed(a, views, s.hits + [t]) <==> Destroyed(a, views, s.hits) || DestroyedBy(a, views, t)
    {
      DestroyedAppend(a, views, s.hits, t);
    }
  }

  /** One test of the pass: if both entities are active and the two circles overlap, notify the
      first entity and then the second. */
  method CheckTest(es: seq<Entity>, t: Test, now: int, ghost views: seq<View>, ghost bullets: set<Entity>,
                   ghost circles: set<Circle>, ghost centers: set<Vec2>, ghost s: PassState,
                   ghost before: map<Animator, (string, int)>)
    requires Shows(es, views, circles, centers) && ValidTest(Counts(views), t)
    requires PassInvariant(es, views, bullets, s, now, before)
    modifies EntitySet(es)`active, AllTargets(views)`currentAnimationPlaying, AllTargets(views)`lastFrameChange
    ensures Shows(es, views, circles, centers)
    ensures PassInvariant(es, views, bullets, Step(s, t, Overlaps(views), es, bullets), now, before)
  {
    assert ShowsAt(es[t.i], views[t.i], circles, centers) && ShowsAt(es[t.j], views[t.j], circles, centers);
    var e1, e2 := es[t.i], es[t.j];
    var c1, c2 := e1.collisions[t.k], e2.collisions[t.l];
    assert Collide(c1, c2) == (t in Overlaps(views));
    if e1.active && e2.active && Collide(c1, c2) {
      RecordHit(es, t, now, views, bullets, circles, centers, before, s);
    }
  }

  /** Circle k of entity i against circle l of entity j, after the circles of j before l. */
  method CheckCircle(es: seq<Entity>, i: nat, j: nat, k: nat, l: nat, now: int, ghost views: seq<View>,
                     ghost bullets: set<Entity>, ghost circles: set<Circle>, ghost centers: set<Vec2>, ghost s: PassState,
                     ghost before: map<Animator, (string, int)>)
    requires Shows(es, views, circles, centers) && i < j < |views| && k < |views[i].discs| && l < |views[j].discs|
    requires PassInvariant(es, views, bullets, RunLine(i, j, k, l, Overlaps(views), es, bullets, s), now, before)
    modifies EntitySet(es)`active, AllTargets(views)`currentAnimationPlaying, AllTargets(views)`lastFrameChange
    ensures Shows(es, views, circles, centers)
    ensures PassInvariant(es, views, bullets, RunLine(i, j, k, l + 1, Overlaps(views), es, bullets, s), now, before)
  {
    CheckTest(es, Test(i, j, k, l), now, views, bullets, circles, centers, RunLine(i, j, k, l, Overlaps(views), es, bullets, s), before);
  }

  /** The innermost loop: circle k of entity i against every circle of entity j. */
  method CheckCircles(es: seq<Entity>, i: nat, j: nat, k: nat, now: int, ghost views: seq<View>,
                      ghost bullets: set<Entity>, ghost circles: set<Circle>, ghost centers: set<Vec2>, ghost s: PassState,
                      ghost before: map<Animator, (string, int)>)
    requires Shows(es, views, circles, centers) && i < j < |views| && k < |views[i].discs|
    requires PassInvariant(es, views, bullets, s, now, before)
    modifies EntitySet(es)`active, AllTargets(views)`currentAnimationPlaying, AllTargets(views)`lastFrameChange
    ensures Shows(es, views, circles, centers)
    ensures PassInvariant(es, views, bullets, RunLine(i, j, k, |views[j].discs|, Overlaps(views), es, bullets, s), now, before)
  {
    ShownCount(es, views, circles, centers, j);
    for l := 0 to |es[j].collisions|
      invariant Shows(es, views, circles, centers)
      invariant PassInvariant(es, views, bullets, RunLine(i, j, k, l, Overlaps(views), es, bullets, s), now, before)
    {
      CheckCircle(es, i, j, k, l, now, views, bullets, circles, centers, s, before);
    }
  }

  /** Each circle of entity i against every circle of entity j. */
  method CheckPair(es: seq<Entity>, i: nat, j: nat, now: int, ghost views: seq<View>, ghost bullets: set<Entity>,
                   ghost circles: set<Circle>, ghost centers: set<Vec2>, ghost s: PassState,
                   ghost before: map<Animator, (string, int)>)
    requires Shows(es, views, circles, centers) && i < j < |views|
    requires PassInvariant(es, views, bullets, s, now, before)
    modifies EntitySet(es)`active, AllTargets(views)`currentAnimationPlaying, AllTargets(views)`lastFrameChange
    ensures Shows(es, views, circles, centers)
    ensures PassInvariant(es, views, bullets, RunBlock(i, j, Counts(views)[j], Counts(views)[i], Overlaps(views), es, bullets, s), now, before)
  {
    ShownCount(es, views, circles, centers, i);
    ghost var overlap, cl := Overlaps(views), |views[j].discs|;
    for k := 0 to |es[i].collisions|
      invariant Shows(es, views, circles, centers)
      invariant PassInvariant(es, views, bullets, RunBlock(i, j, cl, k, overlap, es, bullets, s), now, before)
    {
      ghost var mid := RunBlock(i, j, cl, k, overlap, es, bullets, s);
      CheckCircles(es, i, j, k, now, views, bullets, circles, centers, mid, before);
      assert RunBlock(i, j, cl, k + 1, overlap, es, bullets, s) == RunLine(i, j, k, cl, overlap, es, bullets, mid);
    }
  }

  /** Entity i against every later entity of the registry. */
  method CheckRow(es: seq<Entity>, i: nat, now: int, ghost views: seq<View>, ghost bullets: set<Entity>,
                  ghost circles: set<Circle>, ghost centers: set<Vec2>, ghost s: PassState,
                  ghost before: map<Animator, (string, int)>)
    requires Shows(es, views, circles, centers) && i < |views|
    requires PassInvariant(es, views, bullets, s, now, before)
    modifies EntitySet(es)`active, AllTargets(views)`currentAnimationPlaying, AllTargets(views)`lastFrameChange
    ensures Shows(es, views, circles, centers)
    ensures PassInvariant(es, views, bullets, RunRow(Counts(views), i, |Counts(views)|, Overlaps(views), es, bullets, s), now, before)
  {
    ghost var counts, overlap := Counts(views), Overlaps(views);
    for j := i + 1 to |es|
      invariant Shows(es, views, circles, centers)
      invariant PassInvariant(es, views, bullets, RunRow(counts, i, j, overlap, es, bullets, s), now, before)
    {
      ghost var mid := RunRow(counts, i, j, overlap, es, bullets, s);
      CheckPair(es, i, j, now, views, bullets, circles, centers, mid, before);
      assert RunRow(counts, i, j + 1, overlap, es, bullets, s) == RunBlock(i, j, counts[j], counts[i], overlap, es, bullets, mid);
    }
  }

  /** The outer loop: every entity but the last against every later entity of the registry. */
  method CheckRows(es: seq<Entity>, now: int, ghost views: seq<View>, ghost bullets: set<Entity>,
                   ghost circles: set<Circle>, ghost centers: set<Vec2>, ghost s: PassState,
                   ghost before: map<Animator, (string, int)>)
    requires Shows(es, views, circles, centers)
    requires PassInvariant(es, views, bullets, s, now, before)
    modifies EntitySet(es)`active, AllTargets(views)`currentAnimationPlaying, AllTargets(views)`lastFrameChange
    ensures PassInvariant(es, views, bullets, RunRows(Counts(views), if |es| == 0 then 0 else |es| - 1, Overlaps(views), es, bullets, s), now, before)
  {
    ghost var counts, overlap := Counts(views), Overlaps(views);
    var last := if |es| == 0 then 0 else |es| - 1;
    for i := 0 to last
      invariant Shows(es, views, circles, centers)
      invariant PassInvariant(es, views, bullets, RunRows(counts, i, overlap, es, bullets, s), now, before)
    {
      CheckRow(es, i, now, views, bullets, circles, centers, RunRows(counts, i, overlap, es, bullets, s), before);
    }
  }

  /** check_collisions: every entity but the last against every later entity of the registry,
      each circle of the first against each circle of the second, notifying both entities of each
      overlap found while both are active. The entities end inactive exactly where the reference
      pass over all tests leaves them so; an Animator that some hit paired with a "bullet" shows
      "destroy" from `now`, and every other Animator of the registry is left as it was. */
  method CheckCollisions(es: seq<Entity>, now: int)
    modifies EntitySet(es)`active
    modifies TargetsOf(EntitySet(es))`currentAnimationPlaying, TargetsOf(EntitySet(es))`lastFrameChange
    ensures var views := old(Views(es));
      var tests := AllTests(Counts(views));
      var s := Pass(tests, |tests|, Overlaps(views), es, old(BulletsOf(es)), old(InactiveOf(es)));
      && (forall x :: 0 <= x < |es| ==> es[x].active == (es[x] !in s.off))
      && forall a :: a in AllTargets(views) ==>
           if Destroyed(a, views, s.hits) then a.currentAnimationPlaying == "destroy" && a.lastFrameChange == now
           else a.currentAnimationPlaying == old(a.currentAnimationPlaying) && a.lastFrameChange == old(a.lastFrameChange)
  {
    ghost var views, off, bullets := Views(es), InactiveOf(es), BulletsOf(es);
    ghost var circles, centers := CirclesOf(EntitySet(es)), CentersOf(EntitySet(es));
    ShowsViews(es);
    AllTargetsOfRegistry(es);
    ghost var before := ShownNow(views);
    ghost var s0 := PassState([], off);
    assert BulletsMatch(es, views, bullets) by {
      forall x | 0 <= x < |es| ensures es[x] in bullets <==> views[x].bullet {
        assert es[x] in EntitySet(es);
      }
    }
    assert PassInvariant(es, views, bullets, s0, now, before);
    CheckRows(es, now, views, bullets, circles, centers, s0, before);
    RunRowsIsPass(Counts(views), Overlaps(views), es, bullets, off);
  }
}
