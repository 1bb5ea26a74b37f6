/**
 History pruning at a fixed clock: repeating PruneHistory with any batch limits
 until it returns 0 ends in exactly the tables of one unlimited pass, and the
 newest versions of every head survive.
 */
module Retention {
  import opened Wrappers
  import opened SaveTables
  import opened StoreInvariants

  // The newest `keep` live versions of a head all rank below `keep` themselves,
  // so a batch of prunable versions cannot promote a version into that range.
  lemma {:induction false} RankSurvives(vs: map<VKey, Version>, ws: map<VKey, Version>, removed: set<VKey>,
                                        keep: nat, k: VKey)
    requires forall j | Live(vs, j) && j !in removed :: Live(ws, j)
    requires forall j | j in removed && Live(vs, j) && j.slot == k.slot :: |NewerLive(vs, j)| >= keep
    requires |NewerLive(vs, k)| >= keep
    ensures |NewerLive(ws, k)| >= keep
    decreases |NewerLive(vs, k)|
  {
    var newer := NewerLive(vs, k);
    if |newer| > keep {
      var j := OldestNewer(vs, k);
      assert NewerLive(vs, j) == newer - {j};
      RankSurvives(vs, ws, removed, keep, j);
      Contained(NewerLive(ws, j), NewerLive(ws, k));
    } else {
      forall j | j in newer ensures j in NewerLive(ws, k) {
        assert j !in NewerLive(vs, j) && NewerLive(vs, j) <= newer - {j};
        Contained(NewerLive(vs, j), newer - {j});
      }
      Contained(newer, NewerLive(ws, k));
    }
  }

  lemma OldestNewer(vs: map<VKey, Version>, k: VKey) returns (j: VKey)
    requires NewerLive(vs, k) != {}
    ensures j in NewerLive(vs, k)
    ensures NewerLive(vs, j) == NewerLive(vs, k) - {j}
  {
    j := Least(NewerLive(vs, k));
    forall o | o in NewerLive(vs, k) && o != j ensures o.revision > j.revision {
      assert o.slot == j.slot;
    }
  }

  lemma {:induction false} Least(s: set<VKey>) returns (j: VKey)
    requires s != {}
    ensures j in s && forall o | o in s :: j.revision <= o.revision
    decreases |s|
  {
    j :| j in s;
    if s - {j} != {} {
      var rest := Least(s - {j});
      if rest.revision < j.revision {
        j := rest;
      }
    }
  }

  lemma {:induction false} Contained<T>(a: set<T>, b: set<T>)
    requires a <= b
    ensures |a| <= |b|
    decreases |a|
  {
    if a != {} {
      var x :| x in a;
      Contained(a - {x}, b - {x});
    }
  }

  // One batch leaves exactly the other candidates.
  lemma CandidatesAfterPrune(db: Db, now: Time, chosen: set<VKey>)
    requires chosen <= Candidates(db, now)
    ensures Candidates(PruneTx(db, chosen, now), now) == Candidates(db, now) - chosen
  {
    var db' := PruneTx(db, chosen, now);
    forall k | k in Candidates(db, now) - chosen ensures k in Candidates(db', now) {
      RankSurvives(db.versions, db'.versions, chosen, KeepCount(k.slot.kind), k);
    }
    forall k | k in Candidates(db', now) ensures k in Candidates(db, now) - chosen {
      Contained(NewerLive(db'.versions, k), NewerLive(db.versions, k));
    }
  }

  lemma CountUnion(vs: map<VKey, Version>, ws: map<VKey, Version>, a: set<VKey>, b: set<VKey>, d: Digest)
    requires a !! b && a + b <= vs.Keys && ws.Keys == vs.Keys && forall k | k in vs :: ws[k].blob == vs[k].blob
    ensures CountOf(a + b, vs, d) == CountOf(a, vs, d) + CountOf(b, ws, d)
  {
    var x := set k | k in a && k in vs && vs[k].blob == d;
    var y := set k | k in b && k in ws && ws[k].blob == d;
    assert (set k | k in a + b && k in vs && vs[k].blob == d) == x + y;
  }

  lemma ReleaseOneTwice(b: Blob, m: nat, n: nat, now: Time)
    requires m + n <= b.refs
    ensures ReleaseOne(ReleaseOne(b, m, now), n, now) == ReleaseOne(b, m + n, now)
  {
  }

  lemma ReleaseTwiceAt(blobs: map<Digest, Blob>, vs: map<VKey, Version>, a: set<VKey>, b: set<VKey>, now: Time, d: Digest)
    requires RefsOf(blobs, vs) && a !! b && (forall k | k in a + b :: Live(vs, k)) && d in blobs
    ensures ReleaseOne(ReleaseOne(blobs[d], CountOf(a, vs, d), now), CountOf(b, MarkDeleted(vs, a, now), d), now)
         == ReleaseOne(blobs[d], CountOf(a + b, vs, d), now)
  {
    CountUnion(vs, MarkDeleted(vs, a, now), a, b, d);
    CountSplit(vs, MarkDeleted(vs, a + b, now), a + b, d);
    ReleaseOneTwice(blobs[d], CountOf(a, vs, d), CountOf(b, MarkDeleted(vs, a, now), d), now);
  }

  lemma ReleaseTwice(blobs: map<Digest, Blob>, vs: map<VKey, Version>, a: set<VKey>, b: set<VKey>, now: Time)
    requires RefsOf(blobs, vs) && a !! b && forall k | k in a + b :: Live(vs, k)
    ensures Release(Release(blobs, vs, a, now), MarkDeleted(vs, a, now), b, now) == Release(blobs, vs, a + b, now)
  {
    forall d | d in blobs
      ensures ReleaseOne(ReleaseOne(blobs[d], CountOf(a, vs, d), now), CountOf(b, MarkDeleted(vs, a, now), d), now)
           == ReleaseOne(blobs[d], CountOf(a + b, vs, d), now)
    {
      ReleaseTwiceAt(blobs, vs, a, b, now, d);
    }
  }

  // Two batches at one clock are one batch.
  lemma PruneTwice(db: Db, a: set<VKey>, b: set<VKey>, now: Time)
    requires RefCounts(db) && a !! b && forall k | k in a + b :: Live(db.versions, k)
    ensures PruneTx(PruneTx(db, a, now), b, now) == PruneTx(db, a + b, now)
  {
    ReleaseTwice(db.blobs, db.versions, a, b, now);
    assert MarkDeleted(MarkDeleted(db.versions, a, now), b, now) == MarkDeleted(db.versions, a + b, now);
  }

  // Consecutive PruneHistory calls; each batch is what the query may select.
  ghost predicate Batches(db: Db, now: Time, batches: seq<(nat, set<VKey>)>)
    decreases |batches|
  {
    batches == [] || (
      && OldestOf(db.versions, Candidates(db, now), batches[0].0, batches[0].1)
      && Batches(PruneTx(db, batches[0].1, now), now, batches[1..]))
  }

  function PruneAll(db: Db, now: Time, batches: seq<(nat, set<VKey>)>): Db
    decreases |batches|
  {
    if batches == [] then db else PruneAll(PruneTx(db, batches[0].1, now), now, batches[1..])
  }

  // The rows selected by all batches together.
  function Selected(batches: seq<(nat, set<VKey>)>): set<VKey> {
    if batches == [] then {} else batches[0].1 + Selected(batches[1..])
  }

  lemma {:induction false} BatchesAddUp(db: Db, now: Time, batches: seq<(nat, set<VKey>)>)
    requires RefCounts(db) && Batches(db, now, batches)
    ensures Selected(batches) <= Candidates(db, now)
    ensures PruneAll(db, now, batches) == PruneTx(db, Selected(batches), now)
    decreases |batches|
  {
    if batches == [] {
      PruneNothing(db, now);
    } else {
      var first, next := batches[0].1, PruneTx(db, batches[0].1, now);
      CandidatesAfterPrune(db, now, first);
      PruneKeepsCounts(db, first, now);
      BatchesAddUp(next, now, batches[1..]);
      PruneTwice(db, first, Selected(batches[1..]), now);
    }
  }

  lemma CountAtMost(removed: set<VKey>, vs: map<VKey, Version>, d: Digest)
    ensures CountOf(removed, vs, d) <= |removed|
  {
    Contained((set k | k in removed && k in vs && vs[k].blob == d), removed);
  }

  lemma PruneNothing(db: Db, now: Time)
    ensures PruneTx(db, {}, now) == db
  {
    forall d ensures CountOf({}, db.versions, d) == 0 {
      CountAtMost({}, db.versions, d);
    }
    assert Release(db.blobs, db.versions, {}, now) == db.blobs;
    assert MarkDeleted(db.versions, {}, now) == db.versions;
  }

  // Any limits, any ties, any number of calls: once a call with a positive
  // limit returns 0, the tables are those of one unlimited pass.
  lemma PruningIsBatchIndependent(db: Db, now: Time, batches: seq<(nat, set<VKey>)>, limit: nat)
    requires RefCounts(db) && Batches(db, now, batches) && limit > 0
    requires OldestOf(PruneAll(db, now, batches).versions, Candidates(PruneAll(db, now, batches), now), limit, {})
    ensures PruneAll(db, now, batches) == PruneTx(db, Candidates(db, now), now)
  {
    BatchesAddUp(db, now, batches);
    CandidatesAfterPrune(db, now, Selected(batches));
    assert |Candidates(PruneAll(db, now, batches), now)| == 0;
    assert Selected(batches) == Candidates(db, now);
  }

  // What pruning keeps: the current revision and the newest 10 (battery) or 3 live versions of
  // every head, versions younger than 30 or 14 days, and those whose head is deleted.
  predicate Kept(db: Db, now: Time, k: VKey)
    requires k in db.versions && k.slot in db.heads
  {
    var newer := set j | j in db.versions && j.slot == k.slot && j.revision > k.revision && db.versions[j].deletedAt.None?;
    || k.revision == db.heads[k.slot].current
    || db.heads[k.slot].deletedAt.Some?
    || |newer| < (if k.slot.kind == Battery then 10 else 3)
    || db.versions[k].createdAt >= now - (if k.slot.kind == Battery then 30 else 14) * 24 * 60 * 60
  }

  lemma CandidatesAreNotKept(db: Db, now: Time, k: VKey)
    requires Live(db.versions, k) && k.slot in db.heads
    ensures k in Candidates(db, now) <==> !Kept(db, now, k)
  {
    assert NewerLive(db.versions, k)
        == set j | j in db.versions && j.slot == k.slot && j.revision > k.revision && db.versions[j].deletedAt.None?;
  }

  // No batches touch what is kept.
  lemma PruningKeepsNewest(db: Db, now: Time, batches: seq<(nat, set<VKey>)>, k: VKey)
    requires RefCounts(db) && Batches(db, now, batches) && Live(db.versions, k) && k.slot in db.heads && Kept(db, now, k)
    ensures Live(PruneAll(db, now, batches).versions, k)
  {
    BatchesAddUp(db, now, batches);
    CandidatesAreNotKept(db, now, k);
  }

  // And when a call with a positive limit returns 0 nothing else is left.
  lemma PruningLeavesExactly(db: Db, now: Time, batches: seq<(nat, set<VKey>)>, limit: nat, k: VKey)
    requires RefCounts(db) && Batches(db, now, batches) && limit > 0 && (k in db.versions ==> k.slot in db.heads)
    requires OldestOf(PruneAll(db, now, batches).versions, Candidates(PruneAll(db, now, batches), now), limit, {})
    ensures Live(PruneAll(db, now, batches).versions, k) <==> Live(db.versions, k) && Kept(db, now, k)
  {
    hide Kept, Candidates;
    PruningIsBatchIndependent(db, now, batches, limit);
    if Live(db.versions, k) {
      CandidatesAreNotKept(db, now, k);
    }
  }
}
