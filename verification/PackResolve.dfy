/** What the objects of a pack are: whole objects, and deltas whose base chain ends at one. */
module PackResolve {
  import opened Basics
  import opened PackFormat
  import Delta

  type Records = seq<(nat, Record)>

  /** `o` results from applying `delta` to `base`; a delta keeps its base's type. */
  predicate Patches(base: Obj, delta: bytes, o: Obj) {
    o.kind == base.kind && Delta.Apply(base.data, delta) == Some(o.data)
  }

  function DeltaOf(r: Record): bytes
    requires !r.Whole?
  {
    r.delta
  }

  /** Record `j`, standing for `b`, is what record `i` names as its base. */
  ghost predicate IsBase(h: Hash, rs: Records, i: nat, j: nat, b: Obj) {
    i < |rs| && j < |rs| &&
    match rs[i].1
    case Whole(_) => false
    case OfsDelta(distance, _) => distance <= rs[i].0 && rs[j].0 == rs[i].0 - distance
    case RefDelta(sha, _) => h(b) == sha
  }

  /** Record `i` stands for `o`, by a base chain of at most `k` deltas. */
  ghost predicate Derived(h: Hash, rs: Records, i: nat, o: Obj, k: nat)
    decreases k
  {
    i < |rs| &&
    if rs[i].1.Whole? then o == rs[i].1.obj
    else k > 0 && exists j: nat, b: Obj ::
      IsBase(h, rs, i, j, b) && Derived(h, rs, j, b, k - 1) && Patches(b, DeltaOf(rs[i].1), o)
  }

  /** Record `i` is grounded and stands for `o`. */
  ghost predicate Stands(h: Hash, rs: Records, i: nat, o: Obj) {
    exists k: nat :: Derived(h, rs, i, o, k)
  }

  ghost predicate DistinctOffsets(rs: Records) {
    forall i, j | 0 <= i < j < |rs| :: rs[i].0 != rs[j].0
  }

  /** No two objects of the pack share an id. */
  ghost predicate NoCollision(h: Hash, rs: Records) {
    forall i: nat, a: Obj, j: nat, b: Obj :: Stands(h, rs, i, a) && Stands(h, rs, j, b) && h(a) == h(b) ==> a == b
  }

  /** `b` is a grounded base of record `i`. */
  ghost predicate HasBase(h: Hash, rs: Records, i: nat, b: Obj) {
    exists j: nat :: IsBase(h, rs, i, j, b) && Stands(h, rs, j, b)
  }

  ghost predicate Grounded(h: Hash, rs: Records, i: nat) {
    exists o: Obj :: Stands(h, rs, i, o)
  }

  /** Every record stands for an object. */
  ghost predicate AllStand(h: Hash, rs: Records) {
    forall i: nat | i < |rs| :: Grounded(h, rs, i)
  }

  /** Some record has a grounded base that its delta does not apply to. */
  ghost predicate SomeMisfit(h: Hash, rs: Records) {
    exists i: nat, b: Obj | HasBase(h, rs, i, b) :: Misfit(rs, i, b)
  }

  ghost predicate Misfit(rs: Records, i: nat, b: Obj) {
    i < |rs| && !rs[i].1.Whole? && Delta.Apply(b.data, DeltaOf(rs[i].1)).None?
  }

  lemma WholeStands(h: Hash, rs: Records, i: nat)
    requires i < |rs| && rs[i].1.Whole?
    ensures Stands(h, rs, i, rs[i].1.obj)
  {
    assert Derived(h, rs, i, rs[i].1.obj, 0);
  }

  lemma BaseStands(h: Hash, rs: Records, i: nat, b: Obj, o: Obj)
    requires HasBase(h, rs, i, b) && !rs[i].1.Whole? && Patches(b, DeltaOf(rs[i].1), o)
    ensures Stands(h, rs, i, o)
  {
    var j: nat :| IsBase(h, rs, i, j, b) && Stands(h, rs, j, b);
    var k: nat :| Derived(h, rs, j, b, k);
    assert Derived(h, rs, i, o, k + 1);
  }

  lemma DerivedBase(h: Hash, rs: Records, i: nat, o: Obj, k: nat) returns (j: nat, b: Obj)
    requires Derived(h, rs, i, o, k) && !rs[i].1.Whole?
    ensures k > 0 && IsBase(h, rs, i, j, b) && Derived(h, rs, j, b, k - 1) && Patches(b, DeltaOf(rs[i].1), o)
    ensures HasBase(h, rs, i, b)
  {
    j, b :| IsBase(h, rs, i, j, b) && Derived(h, rs, j, b, k - 1) && Patches(b, DeltaOf(rs[i].1), o);
    assert Stands(h, rs, j, b);
  }

  /** A record stands for at most one object. */
  lemma {:induction false} UniqueObject(h: Hash, rs: Records, i: nat, a: Obj, j: nat, b: Obj, k: nat)
    requires DistinctOffsets(rs) && NoCollision(h, rs) && Derived(h, rs, i, a, j) && Derived(h, rs, i, b, k)
    ensures a == b
    decreases j
  {
    if !rs[i].1.Whole? {
      var cj, c := DerivedBase(h, rs, i, a, j);
      var dj, d := DerivedBase(h, rs, i, b, k);
      if rs[i].1.OfsDelta? {
        assert rs[cj].0 == rs[dj].0;
        UniqueObject(h, rs, cj, c, j - 1, d, k - 1);
      } else {
        assert Stands(h, rs, cj, c) && Stands(h, rs, dj, d);
      }
    }
  }

  lemma StandsOnce(h: Hash, rs: Records, i: nat, a: Obj, b: Obj)
    requires DistinctOffsets(rs) && NoCollision(h, rs) && Stands(h, rs, i, a) && Stands(h, rs, i, b)
    ensures a == b
  {
    var j: nat :| Derived(h, rs, i, a, j);
    var k: nat :| Derived(h, rs, i, b, k);
    UniqueObject(h, rs, i, a, j, b, k);
  }

  // ---- what has been resolved so far

  /** `got` maps positions to objects that their records stand for. */
  ghost predicate Sound(h: Hash, rs: Records, got: map<nat, Obj>) {
    forall off | off in got :: exists i: nat :: i < |rs| && rs[i].0 == off && Stands(h, rs, i, got[off])
  }

  /** Record `i` cannot be resolved from `got`. */
  ghost predicate Blocked(h: Hash, rs: Records, got: map<nat, Obj>, i: nat)
    requires i < |rs|
  {
    match rs[i].1
    case Whole(_) => false
    case OfsDelta(distance, _) => distance <= rs[i].0 ==> rs[i].0 - distance !in got
    case RefDelta(sha, _) => forall off | off in got :: h(got[off]) != sha
  }

  /** Nothing that is missing from `got` can be resolved from it. */
  ghost predicate Saturated(h: Hash, rs: Records, got: map<nat, Obj>) {
    forall i: nat | i < |rs| :: rs[i].0 in got || Blocked(h, rs, got, i)
  }

  lemma SoundAt(h: Hash, rs: Records, got: map<nat, Obj>, i: nat)
    requires DistinctOffsets(rs) && Sound(h, rs, got) && i < |rs| && rs[i].0 in got
    ensures Stands(h, rs, i, got[rs[i].0])
  {
    var j: nat :| j < |rs| && rs[j].0 == rs[i].0 && Stands(h, rs, j, got[rs[i].0]);
    assert i == j;
  }

  lemma Unblocked(h: Hash, rs: Records, got: map<nat, Obj>, i: nat, j: nat, b: Obj)
    requires IsBase(h, rs, i, j, b) && rs[j].0 in got && got[rs[j].0] == b
    ensures !Blocked(h, rs, got, i)
  {
  }

  lemma ResolvedRight(h: Hash, rs: Records, got: map<nat, Obj>, i: nat, o: Obj)
    requires DistinctOffsets(rs) && NoCollision(h, rs) && Sound(h, rs, got)
    requires Stands(h, rs, i, o) && i < |rs| && rs[i].0 in got
    ensures got[rs[i].0] == o
  {
    SoundAt(h, rs, got, i);
    StandsOnce(h, rs, i, o, got[rs[i].0]);
  }

  /** Once nothing more can be resolved, everything that stands has been. */
  lemma {:induction false} SaturatedHasAll(h: Hash, rs: Records, got: map<nat, Obj>, i: nat, o: Obj, k: nat)
    requires DistinctOffsets(rs) && NoCollision(h, rs) && Sound(h, rs, got) && Saturated(h, rs, got)
    requires Derived(h, rs, i, o, k)
    ensures rs[i].0 in got && got[rs[i].0] == o
    decreases k
  {
    if !rs[i].1.Whole? {
      var j, b := DerivedBase(h, rs, i, o, k);
      SaturatedHasAll(h, rs, got, j, b, k - 1);
      Unblocked(h, rs, got, i, j, b);
    }
    assert Stands(h, rs, i, o);
    ResolvedRight(h, rs, got, i, o);
  }

  /** A record that stands for an object has no base that its delta does not apply to. */
  lemma StandsFits(h: Hash, rs: Records, i: nat, o: Obj, b: Obj)
    requires DistinctOffsets(rs) && NoCollision(h, rs) && Stands(h, rs, i, o) && HasBase(h, rs, i, b)
    ensures !Misfit(rs, i, b)
  {
    if !rs[i].1.Whole? {
      var k: nat :| Derived(h, rs, i, o, k);
      var j, c := DerivedBase(h, rs, i, o, k);
      var j2: nat :| IsBase(h, rs, i, j2, b) && Stands(h, rs, j2, b);
      assert Stands(h, rs, j, c);
      if rs[i].1.OfsDelta? {
        assert rs[j].0 == rs[j2].0;
        StandsOnce(h, rs, j, b, c);
      }
    }
  }

  /** A pack whose records all stand has no misfit: the three outcomes exclude each other. */
  lemma StandOrMisfit(h: Hash, rs: Records)
    requires DistinctOffsets(rs) && NoCollision(h, rs) && AllStand(h, rs)
    ensures !SomeMisfit(h, rs)
  {
    forall i: nat, b: Obj | HasBase(h, rs, i, b) ensures !Misfit(rs, i, b) {
      assert Grounded(h, rs, i);
      var o: Obj :| Stands(h, rs, i, o);
      StandsFits(h, rs, i, o, b);
    }
  }

  /** When nothing more can be resolved and no delta failed, no grounded base misfits. */
  lemma SaturatedFit(h: Hash, rs: Records, got: map<nat, Obj>, i: nat, b: Obj)
    requires DistinctOffsets(rs) && NoCollision(h, rs) && Sound(h, rs, got) && Saturated(h, rs, got)
    requires HasBase(h, rs, i, b)
    ensures !Misfit(rs, i, b)
  {
    var j: nat :| IsBase(h, rs, i, j, b) && Stands(h, rs, j, b);
    var k: nat :| Derived(h, rs, j, b, k);
    SaturatedHasAll(h, rs, got, j, b, k);
    Unblocked(h, rs, got, i, j, b);
    SoundAt(h, rs, got, i);
    StandsFits(h, rs, i, got[rs[i].0], b);
  }

  lemma SaturatedFits(h: Hash, rs: Records, got: map<nat, Obj>)
    requires DistinctOffsets(rs) && NoCollision(h, rs) && Sound(h, rs, got) && Saturated(h, rs, got)
    ensures !SomeMisfit(h, rs)
  {
    forall i: nat, b: Obj | HasBase(h, rs, i, b) ensures !Misfit(rs, i, b) { SaturatedFit(h, rs, got, i, b); }
  }

  /** A record left out of a saturated set stands for nothing. */
  lemma LeftOut(h: Hash, rs: Records, got: map<nat, Obj>, i: nat)
    requires DistinctOffsets(rs) && NoCollision(h, rs) && Sound(h, rs, got) && Saturated(h, rs, got)
    requires i < |rs| && rs[i].0 !in got
    ensures !Grounded(h, rs, i)
  {
    forall o: Obj ensures !Stands(h, rs, i, o) {
      if Stands(h, rs, i, o) {
        var k: nat :| Derived(h, rs, i, o, k);
        SaturatedHasAll(h, rs, got, i, o, k);
      }
    }
  }
}
