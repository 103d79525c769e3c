/** Natural keys at work in the store: one bead per key, and repeats that find it. */
module KeyedStore {
  import opened Prelude
  import opened BeadModel
  import opened BeadStore
  import opened NaturalKey

  ghost predicate OneHolderPerKey(tasks: seq<Bead>) {
    forall i, j, key :: 0 <= i < j < |tasks| && Holds(tasks[i], key) ==> !Holds(tasks[j], key)
  }

  /** A derivation never yields the empty key. */
  lemma DerivedKeyNotEmpty(env: KeyEnv, i: KeyInputs)
    ensures DeriveNaturalKey(env, i) != Ok(Some(""))
  {
  }

  /** Nothing to derive a key from, and metadata that brings one already held. */
  predicate BringsHeldKey(env: Env, tasks: seq<Bead>, a: CreateArgs) {
    && DeriveNaturalKey(env.keys, a.key) == Ok(None)
    && a.metadata.naturalKey.Some?
    && Holder(tasks, a.metadata.naturalKey.value).Some?
  }

  /** A create keeps keys unique exactly when it is not an otherwise fileable one
      that brings a held key past the derivation. */
  lemma CreateKeepsOneHolderIff(env: Env, tasks: seq<Bead>, id: Id, a: CreateArgs)
    requires OneHolderPerKey(tasks)
    ensures OneHolderPerKey(AfterCreate(tasks, Create(env, tasks, id, a)))
       <==> !(Fileable(env, tasks, a) && BringsHeldKey(env, tasks, a))
  {
    var c := Create(env, tasks, id, a);
    if BringsHeldKey(env, tasks, a) {
      CreateDecides(env, tasks, id, a);
    }
    if c.Created? {
      var after := tasks + [c.bead];
      if BringsHeldKey(env, tasks, a) {
        var key := a.metadata.naturalKey.value;
        var h := Holder(tasks, key).value;
        assert Holds(after[h], key) && Holds(after[|tasks|], key);
      } else {
        forall i, j, key | 0 <= i < j < |after| && Holds(after[i], key) ensures !Holds(after[j], key) {
          if j == |tasks| && Holds(after[j], key) {
            NewKeyUnheld(env, tasks, id, a, key);
          }
        }
      }
    }
  }

  /** Nothing derived, and "k" brought along in the metadata. */
  const SMUGGLED := CreateArgs(
    Pending, None, None, KeyInputs(None, None, None, None, None, None), None, [], [],
    NO_METADATA.(naturalKey := Some("k")))

  /** Filing it twice leaves two beads holding one key. */
  lemma SmuggledTwice(env: Env, one: Id, two: Id)
    ensures var once := AfterCreate([], Create(env, [], one, SMUGGLED));
      var twice := AfterCreate(once, Create(env, once, two, SMUGGLED));
      OneHolderPerKey(once) && |twice| == 2 && Holds(twice[0], "k") && Holds(twice[1], "k")
  {
  }

  lemma NewKeyUnheld(env: Env, tasks: seq<Bead>, id: Id, a: CreateArgs, key: string)
    requires Create(env, tasks, id, a).Created? && !BringsHeldKey(env, tasks, a)
    requires Holds(Create(env, tasks, id, a).bead, key)
    ensures forall k :: 0 <= k < |tasks| ==> !Holds(tasks[k], key)
  {
    assert forall k :: 0 <= k < |tasks| ==> tasks[k] in tasks;
    var derived := DeriveNaturalKey(env.keys, a.key).value;
    if derived.Some? {
      assert derived.value == key;
    } else {
      assert a.metadata.naturalKey == Some(key);
    }
  }

  datatype Filing = Filing(id: Id, args: CreateArgs)

  ghost function Grown(env: Env, tasks: seq<Bead>, filings: seq<Filing>): seq<Bead> {
    if filings == [] then tasks
    else
      var before := Grown(env, tasks, filings[..|filings| - 1]);
      var f := filings[|filings| - 1];
      AfterCreate(before, Create(env, before, f.id, f.args))
  }

  /** However many filings, no two beads hold one key. */
  lemma {:induction false} GrownHoldsEachKeyOnce(env: Env, filings: seq<Filing>)
    requires forall f :: f in filings ==> f.args.metadata.naturalKey.None?
    ensures OneHolderPerKey(Grown(env, [], filings))
  {
    if filings != [] {
      var f := filings[|filings| - 1];
      var before := Grown(env, [], filings[..|filings| - 1]);
      assert f in filings;
      GrownHoldsEachKeyOnce(env, filings[..|filings| - 1]);
      CreateKeepsOneHolderIff(env, before, f.id, f.args);
    }
  }

  lemma {:induction false} GrownKeeps(env: Env, tasks: seq<Bead>, filings: seq<Filing>)
    ensures tasks <= Grown(env, tasks, filings)
  {
    if filings != [] {
      GrownKeeps(env, tasks, filings[..|filings| - 1]);
    }
  }

  lemma {:induction false} FirstHolder(tasks: seq<Bead>, key: string, n: nat)
    requires n < |tasks| && Holds(tasks[n], key)
    requires forall k :: 0 <= k < n ==> !Holds(tasks[k], key)
    ensures Holder(tasks, key) == Some(n)
  {
    if n > 0 {
      assert !Holds(tasks[0], key);
      FirstHolder(tasks[1..], key, n - 1);
    }
  }

  /** Filing the same work again, after any other filings and under any fresh id,
      returns the bead that holds its key and leaves the store as it was. */
  lemma RepeatReturnsHolder(env: Env, tasks: seq<Bead>, id: Id, a: CreateArgs, filings: seq<Filing>, again: Id)
    requires Create(env, tasks, id, a).Created? && DeriveNaturalKey(env.keys, a.key).value.Some?
    ensures var b := Create(env, tasks, id, a).bead;
      var later := Grown(env, tasks + [b], filings);
      && Create(env, later, again, a) == Duplicate(|tasks|)
      && |tasks| < |later| && later[|tasks|] == b
      && AfterCreate(later, Create(env, later, again, a)) == later
  {
    var b := Create(env, tasks, id, a).bead;
    var later := Grown(env, tasks + [b], filings);
    var key := DeriveNaturalKey(env.keys, a.key).value.value;
    GrownKeeps(env, tasks + [b], filings);
    DerivedKeyNotEmpty(env.keys, a.key);
    assert later[|tasks|] == (tasks + [b])[|tasks|] == b;
    forall k | 0 <= k < |tasks| ensures !Holds(later[k], key) {
      assert later[k] == (tasks + [b])[k] == tasks[k];
      assert tasks[k] in tasks;
    }
    FirstHolder(later, key, |tasks|);
  }
}
