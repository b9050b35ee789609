/**
 ReaperService of media/app/reaper_service.go: list a class's objects, drop those any row still
 references or that are younger than the grace window, and delete the rest, each after a recheck.
 Before every store or repository call, uploads and row changes happen as they please; the script
 says which, and whether the call fails; a failing delete may have deleted. Only the reaper deletes
 objects.
 */
module Reaper {
  import opened StorageKey
  import opened Seqs

  type Ref = string
  type Class = string
  type Time = int
  type RowId = nat

  datatype Backend = Local | S3
  datatype Row = Row(ref: Ref, backend: Backend)
  datatype Object = Object(key: Ref, modified: Time)

  /** The swept bucket and every source's rows. */
  datatype World = World(objects: map<Ref, Time>, sources: map<Class, map<RowId, Row>>)

  /** A stored upload, or any change to any source's rows. */
  datatype Change = Put(ref: Ref, at: Time) | Rows(sources: map<Class, map<RowId, Row>>)

  /** Before a call, and what becomes of it: a delete reported as failing may have landed all the same. */
  datatype Turn = Turn(changes: seq<Change>, fails: bool, lands: bool)

  /** What a pass works with: only objects not modified after the cutoff may go. */
  datatype Sweep = Sweep(backend: Backend, classes: seq<Class>, cutoff: Time)

  /** A class's listing, from its first world to its last, and the candidates picked from it. */
  datatype Listing = Listing(class_: Class, from: nat, to: nat, picked: seq<Ref>)

  /** The recheck of a class's candidate, from its first world to its last; `free` if it found no reference. */
  datatype Recheck = Recheck(class_: Class, ref: Ref, from: nat, to: nat, free: bool)

  /** The listings and rechecks a pass made, in order. */
  datatype Journal = Journal(listings: seq<Listing>, rechecks: seq<Recheck>)

  function Changed(w: World, c: Change): World {
    match c
    case Put(ref, at) => w.(objects := w.objects[ref := at])
    case Rows(sources) => w.(sources := sources)
  }

  function ChangedBy(w: World, changes: seq<Change>): World
    decreases |changes|
  {
    if changes == [] then w else Changed(ChangedBy(w, changes[..|changes| - 1]), changes[|changes| - 1])
  }

  lemma ChangedMore(w: World, changes: seq<Change>, n: nat)
    requires n < |changes|
    ensures ChangedBy(w, changes[..n + 1]) == Changed(ChangedBy(w, changes[..n]), changes[n])
  {
    assert changes[..n + 1][..n] == changes[..n];
  }

  /** ExistsByStorageRef on one source. */
  predicate RefBy(w: World, backend: Backend, c: Class, ref: Ref) {
    c in w.sources && exists id :: id in w.sources[c] && w.sources[c][id] == Row(ref, backend)
  }

  predicate Referenced(w: World, backend: Backend, classes: seq<Class>, ref: Ref) {
    exists i :: 0 <= i < |classes| && RefBy(w, backend, classes[i], ref)
  }

  /** What a sweep of one class should delete. */
  function Orphans(w: World, backend: Backend, classes: seq<Class>, c: Class, cutoff: Time): (r: set<Ref>) {
    set ref | ref in w.objects && KeyBelongsToClass(ref, c) && w.objects[ref] <= cutoff
              && !Referenced(w, backend, classes, ref)
  }

  /** The objects left when the first `n` classes' orphans are gone. */
  function Swept(w: World, backend: Backend, classes: seq<Class>, cutoff: Time, n: nat): map<Ref, Time>
    requires n <= |classes|
  {
    if n == 0 then w.objects
    else Swept(w, backend, classes, cutoff, n - 1) - Orphans(w, backend, classes, classes[n - 1], cutoff)
  }

  lemma {:induction false} SweptKeys(w: World, backend: Backend, classes: seq<Class>, cutoff: Time, n: nat)
    requires n <= |classes|
    ensures var left := Swept(w, backend, classes, cutoff, n);
            && (forall ref :: ref in left ==> ref in w.objects && left[ref] == w.objects[ref])
            && (forall ref :: ref in w.objects && ref !in left ==>
                  exists i :: 0 <= i < n && ref in Orphans(w, backend, classes, classes[i], cutoff))
            && (forall i, ref :: 0 <= i < n && ref in Orphans(w, backend, classes, classes[i], cutoff) ==> ref !in left)
  {
    hide Orphans;
    if n > 0 {
      SweptKeys(w, backend, classes, cutoff, n - 1);
    }
  }

  /** Sweeping other classes first leaves a class's orphans as they were. */
  lemma SweepsAreSeparate(w: World, backend: Backend, classes: seq<Class>, cutoff: Time, n: nat)
    requires n < |classes| && NoDups(classes)
    ensures var now := w.(objects := Swept(w, backend, classes, cutoff, n));
            Orphans(now, backend, classes, classes[n], cutoff) == Orphans(w, backend, classes, classes[n], cutoff)
  {
    SweptKeys(w, backend, classes, cutoff, n);
    var now := w.(objects := Swept(w, backend, classes, cutoff, n));
    hide KeyBelongsToClass;
    forall i | 0 <= i < n
      ensures Orphans(w, backend, classes, classes[i], cutoff) !! Orphans(w, backend, classes, classes[n], cutoff)
    {
      assert classes[i] != classes[n];
      ClassesAreDisjoint(w, backend, classes, classes[i], classes[n], cutoff);
    }
    assert forall ref :: Referenced(now, backend, classes, ref) <==> Referenced(w, backend, classes, ref);
  }

  /** No key belongs to two classes. */
  lemma ClassesAreDisjoint(w: World, backend: Backend, classes: seq<Class>, c: Class, d: Class, cutoff: Time)
    requires c != d
    ensures Orphans(w, backend, classes, c, cutoff) !! Orphans(w, backend, classes, d, cutoff)
  {
  }

  /** A second pass at the same time finds nothing. */
  lemma NothingLeft(w: World, backend: Backend, classes: seq<Class>, cutoff: Time, i: nat)
    requires i < |classes|
    ensures var left := w.(objects := Swept(w, backend, classes, cutoff, |classes|));
            Orphans(left, backend, classes, classes[i], cutoff) == {}
  {
    hide Orphans, Swept;
    SweptKeys(w, backend, classes, cutoff, |classes|);
    OrphansShrink(w, Swept(w, backend, classes, cutoff, |classes|), backend, classes, classes[i], cutoff);
  }

  /** With fewer objects and the same rows, what is an orphan was one before. */
  lemma OrphansShrink(w: World, left: map<Ref, Time>, backend: Backend, classes: seq<Class>, c: Class, cutoff: Time)
    requires forall ref :: ref in left ==> ref in w.objects && left[ref] == w.objects[ref]
    ensures Orphans(w.(objects := left), backend, classes, c, cutoff) <= Orphans(w, backend, classes, c, cutoff)
    ensures forall ref :: ref in Orphans(w.(objects := left), backend, classes, c, cutoff) ==> ref in left
  {
    hide KeyBelongsToClass;
    var smaller := w.(objects := left);
    assert forall ref :: Referenced(smaller, backend, classes, ref) <==> Referenced(w, backend, classes, ref);
  }

  // ----- What a pass may delete, over the worlds it ran through -----

  /** The source references the object in every world of the stretch. */
  ghost predicate SeenThroughout(past: seq<World>, from: nat, to: nat, backend: Backend, c: Class, ref: Ref)
    requires to < |past|
  {
    forall j :: from <= j <= to ==> RefBy(past[j], backend, c, ref)
  }

  predicate IsOld(w: World, ref: Ref, cutoff: Time) {
    ref in w.objects && w.objects[ref] <= cutoff
  }

  /** Somewhere in the stretch the object is there, and old enough. */
  ghost predicate OldOnce(past: seq<World>, from: nat, to: nat, ref: Ref, cutoff: Time)
    requires to < |past|
  {
    exists j :: from <= j <= to && IsOld(past[j], ref, cutoff)
  }

  ghost predicate SomeSourceThroughout(past: seq<World>, g: Sweep, from: nat, to: nat, ref: Ref)
    requires to < |past|
  {
    exists i :: 0 <= i < |g.classes| && SeenThroughout(past, from, to, g.backend, g.classes[i], ref)
  }

  /** The object's class was listed, and it was rechecked after that, both before world `at` ended. */
  ghost predicate DeletedAfter(past: seq<World>, g: Sweep, lo: nat, l: Listing, r: Recheck, ref: Ref, at: nat) {
    && lo <= l.from <= l.to <= r.from <= r.to <= at < |past|
    && r.ref == ref && KeyBelongsToClass(ref, l.class_)
    && OldOnce(past, l.from, l.to, ref, g.cutoff)
    && !SomeSourceThroughout(past, g, r.from, r.to, ref)
  }

  ghost predicate Justified(past: seq<World>, jn: Journal, g: Sweep, lo: nat, ref: Ref, at: nat) {
    exists m, n :: 0 <= m < |jn.listings| && 0 <= n < |jn.rechecks| &&
                   DeletedAfter(past, g, lo, jn.listings[m], jn.rechecks[n], ref, at)
  }

  predicate Vanishes(past: seq<World>, ref: Ref, i: nat) {
    i + 1 < |past| && ref in past[i].objects && ref !in past[i + 1].objects
  }

  /** The journal speaks of worlds from `lo` to the last. */
  predicate InRange(past: seq<World>, jn: Journal, lo: nat) {
    && (forall m :: 0 <= m < |jn.listings| ==> lo <= jn.listings[m].from <= jn.listings[m].to < |past|)
    && (forall n :: 0 <= n < |jn.rechecks| ==> lo <= jn.rechecks[n].from <= jn.rechecks[n].to < |past|)
  }

  /** A pass that began at world `lo`: every object that vanished since was listed old and rechecked in vain. */
  ghost predicate Pass(past: seq<World>, jn: Journal, g: Sweep, lo: nat) {
    && lo < |past| && InRange(past, jn, lo)
    && forall i, ref :: lo <= i && Vanishes(past, ref, i) ==> Justified(past, jn, g, lo, ref, i)
  }

  /** All through every listing of its class, the object is missing or was written within the grace window. */
  ghost predicate SparedByListing(past: seq<World>, jn: Journal, g: Sweep, ref: Ref) {
    forall m :: 0 <= m < |jn.listings| && jn.listings[m].to < |past| && KeyBelongsToClass(ref, jn.listings[m].class_) ==>
      !OldOnce(past, jn.listings[m].from, jn.listings[m].to, ref, g.cutoff)
  }

  /** All through every recheck the pass made of it, whatever came of it, some source references the object. */
  ghost predicate SparedByRecheck(past: seq<World>, jn: Journal, g: Sweep, ref: Ref) {
    forall n :: 0 <= n < |jn.rechecks| && jn.rechecks[n].to < |past| && jn.rechecks[n].ref == ref ==>
      SomeSourceThroughout(past, g, jn.rechecks[n].from, jn.rechecks[n].to, ref)
  }

  /** From world `since` to world `hi` one source references the object, and no listing of its class ended before. */
  ghost predicate SparedByRow(past: seq<World>, jn: Journal, g: Sweep, since: nat, hi: nat, ref: Ref)
    requires hi < |past|
  {
    && (exists i :: 0 <= i < |g.classes| && SeenThroughout(past, since, hi, g.backend, g.classes[i], ref))
    && (forall m :: 0 <= m < |jn.listings| && KeyBelongsToClass(ref, jn.listings[m].class_) ==> since <= jn.listings[m].to)
  }

  /**
   An object that is there at world `start` is still there at world `hi` if all through its class's
   listing it was missing or written within the grace window; or if some source references it all
   through its recheck; or if one source references it from before its class's listing ends up to
   then. In particular one row that stays put through the pass protects it.
   */
  lemma {:induction false} Survives(
    past: seq<World>, jn: Journal, g: Sweep, lo: nat, start: nat, since: nat, hi: nat, ref: Ref)
    requires Pass(past, jn, g, lo) && lo <= start <= hi < |past|
    requires ref in past[start].objects
    requires SparedByListing(past, jn, g, ref) || SparedByRecheck(past, jn, g, ref) || SparedByRow(past, jn, g, since, hi, ref)
    ensures ref in past[hi].objects
    decreases hi - start
  {
    hide Justified, SparedByListing, SparedByRecheck, SparedByRow;
    if start < hi {
      if ref !in past[start + 1].objects {
        assert Vanishes(past, ref, start);
        NotSpared(past, jn, g, lo, start, since, hi, ref);
      }
      Survives(past, jn, g, lo, start + 1, since, hi, ref);
    }
  }

  /** The worlds alone tell: one row kept through the pass, or a write within the grace window, is enough. */
  lemma SurvivesThePass(past: seq<World>, jn: Journal, g: Sweep, lo: nat, ref: Ref)
    requires Pass(past, jn, g, lo) && ref in past[lo].objects
    requires SomeSourceThroughout(past, g, lo, |past| - 1, ref) || !OldOnce(past, lo, |past| - 1, ref, g.cutoff)
    ensures ref in past[|past| - 1].objects
  {
    hide Justified, SeenThroughout, KeyBelongsToClass;
    var hi := |past| - 1;
    if !SomeSourceThroughout(past, g, lo, hi, ref) {
      forall m | 0 <= m < |jn.listings| ensures !OldOnce(past, jn.listings[m].from, jn.listings[m].to, ref, g.cutoff) {
        assert forall j :: jn.listings[m].from <= j <= jn.listings[m].to ==> lo <= j <= hi && !IsOld(past[j], ref, g.cutoff);
      }
    }
    Survives(past, jn, g, lo, lo, lo, hi, ref);
  }

  /** What vanishes was spared in none of the three ways. */
  lemma NotSpared(past: seq<World>, jn: Journal, g: Sweep, lo: nat, at: nat, since: nat, hi: nat, ref: Ref)
    requires Justified(past, jn, g, lo, ref, at) && at < hi < |past|
    ensures !SparedByListing(past, jn, g, ref) && !SparedByRecheck(past, jn, g, ref)
    ensures !SparedByRow(past, jn, g, since, hi, ref)
  {
    hide KeyBelongsToClass, OldOnce, SeenThroughout;
    var m, n :| 0 <= m < |jn.listings| && 0 <= n < |jn.rechecks| &&
                DeletedAfter(past, g, lo, jn.listings[m], jn.rechecks[n], ref, at);
    var l, r := jn.listings[m], jn.rechecks[n];
    if SparedByRow(past, jn, g, since, hi, ref) {
      var i :| 0 <= i < |g.classes| && SeenThroughout(past, since, hi, g.backend, g.classes[i], ref);
      SeenWithin(past, since, hi, r.from, r.to, g.backend, g.classes[i], ref);
    }
  }

  lemma SeenWithin(past: seq<World>, from: nat, to: nat, a: nat, b: nat, backend: Backend, c: Class, ref: Ref)
    requires to < |past| && from <= a && b <= to && SeenThroughout(past, from, to, backend, c, ref)
    ensures SeenThroughout(past, a, b, backend, c, ref)
  {
  }

  // ----- What a pass has to delete -----

  /** The object is there, and old enough, in every world of the stretch. */
  ghost predicate OldThroughout(past: seq<World>, from: nat, to: nat, ref: Ref, cutoff: Time)
    requires from <= to < |past|
  {
    forall j :: from <= j <= to ==> IsOld(past[j], ref, cutoff)
  }

  /** No source references the object in any world from `lo` on. */
  ghost predicate NeverReferenced(past: seq<World>, g: Sweep, lo: nat, ref: Ref) {
    forall j :: lo <= j < |past| ==> !Referenced(past[j], g.backend, g.classes, ref)
  }

  /** The object is missing from some world from `from` on. */
  predicate GoneSince(past: seq<World>, from: nat, ref: Ref) {
    exists j :: from <= j < |past| && ref !in past[j].objects
  }

  /** The candidates the listing gave, each once: the class's own, old at some moment, and all there are for sure. */
  ghost predicate PicksRightly(past: seq<World>, g: Sweep, lo: nat, l: Listing) {
    && lo <= l.from <= l.to < |past| && NoDups(l.picked)
    && (forall ref :: ref in l.picked ==> KeyBelongsToClass(ref, l.class_) && OldOnce(past, l.from, l.to, ref, g.cutoff))
    && (forall ref :: KeyBelongsToClass(ref, l.class_) && NeverReferenced(past, g, lo, ref) ==>
          (OldThroughout(past, l.from, l.to, ref, g.cutoff) ==> ref in l.picked))
  }

  /** What a recheck found was so, and what it found free was deleted. */
  ghost predicate ActedOn(past: seq<World>, g: Sweep, r: Recheck) {
    && r.to < |past|
    && if r.free then GoneSince(past, r.to, r.ref) else Referenced(past[r.to], g.backend, g.classes, r.ref)
  }

  ghost predicate AllActedOn(past: seq<World>, g: Sweep, rechecks: seq<Recheck>) {
    forall n :: 0 <= n < |rechecks| ==> ActedOn(past, g, rechecks[n])
  }

  /** The objects of the class's rechecks, in order. */
  function RefsOf(rechecks: seq<Recheck>, c: Class): seq<Ref> {
    if rechecks == [] then []
    else
      var n := |rechecks| - 1;
      RefsOf(rechecks[..n], c) + (if rechecks[n].class_ == c then [rechecks[n].ref] else [])
  }

  /** How many of the class's rechecks found nothing. */
  function FreeOf(rechecks: seq<Recheck>, c: Class): nat {
    if rechecks == [] then 0
    else
      var n := |rechecks| - 1;
      FreeOf(rechecks[..n], c) + (if rechecks[n].class_ == c && rechecks[n].free then 1 else 0)
  }

  /** The class's rechecks came after its listing. */
  predicate AfterListing(rechecks: seq<Recheck>, c: Class, to: nat) {
    forall n :: 0 <= n < |rechecks| && rechecks[n].class_ == c ==> to <= rechecks[n].from <= rechecks[n].to
  }

  /** The listing's candidates were rechecked after it, each once and in order, and those found free were counted. */
  ghost predicate SweptWell(past: seq<World>, jn: Journal, g: Sweep, lo: nat, l: Listing, deleted: nat) {
    && PicksRightly(past, g, lo, l) && AfterListing(jn.rechecks, l.class_, l.to)
    && RefsOf(jn.rechecks, l.class_) == l.picked && deleted == FreeOf(jn.rechecks, l.class_)
  }

  /** A pass that answered: every class was swept well. */
  ghost predicate Thorough(past: seq<World>, jn: Journal, g: Sweep, lo: nat, result: map<Class, nat>) {
    && AllActedOn(past, g, jn.rechecks) && |jn.listings| == |g.classes| && (forall c :: c in result <==> c in g.classes)
    && forall m :: 0 <= m < |jn.listings| ==>
         && jn.listings[m].class_ == g.classes[m] && g.classes[m] in result
         && SweptWell(past, jn, g, lo, jn.listings[m], result[g.classes[m]])
  }

  /** Each of a class's rechecked objects has its recheck. */
  lemma {:induction false} RecheckOf(rechecks: seq<Recheck>, c: Class, ref: Ref) returns (n: nat)
    requires ref in RefsOf(rechecks, c)
    ensures n < |rechecks| && rechecks[n].class_ == c && rechecks[n].ref == ref
  {
    var last := |rechecks| - 1;
    if rechecks[last].class_ == c && rechecks[last].ref == ref {
      n := last;
    } else {
      n := RecheckOf(rechecks[..last], c, ref);
    }
  }

  /**
   Whatever else runs, a pass that answers has deleted every object it should for sure: one that was
   there and old all through its class's listing, and that no source references in any world of the
   pass, is missing from some world after its listing.
   */
  lemma OrphansGo(past: seq<World>, jn: Journal, g: Sweep, lo: nat, result: map<Class, nat>, m: nat, ref: Ref)
    requires Pass(past, jn, g, lo) && Thorough(past, jn, g, lo, result) && m < |jn.listings|
    requires KeyBelongsToClass(ref, jn.listings[m].class_) && NeverReferenced(past, g, lo, ref)
    requires jn.listings[m].from <= jn.listings[m].to < |past|
    requires OldThroughout(past, jn.listings[m].from, jn.listings[m].to, ref, g.cutoff)
    ensures GoneSince(past, jn.listings[m].to, ref)
  {
    hide KeyBelongsToClass, OldThroughout, OldOnce, Referenced, Justified;
    var l := jn.listings[m];
    assert SweptWell(past, jn, g, lo, l, result[g.classes[m]]);
    var n := RecheckOf(jn.rechecks, l.class_, ref);
    assert ActedOn(past, g, jn.rechecks[n]) && InRange(past, jn, lo);
  }

  // ----- How a pass goes on -----

  ghost predicate Extends(before: seq<World>, after: seq<World>) {
    |before| <= |after| && after[..|before|] == before
  }

  /** From world `lo` on nothing disappears. */
  ghost predicate NoLoss(past: seq<World>, lo: nat) {
    forall i, ref :: lo <= i && i + 1 < |past| && ref in past[i].objects ==> ref in past[i + 1].objects
  }

  /** One stretch of time after another. */
  lemma Later(a: seq<World>, b: seq<World>, c: seq<World>)
    requires a != [] && Extends(a, b) && Extends(b, c) && NoLoss(b, |a| - 1) && NoLoss(c, |b| - 1)
    ensures |a| <= |b| <= |c| && Extends(a, c) && NoLoss(c, |a| - 1)
  {
    forall i, ref | |a| - 1 <= i && i + 1 < |c| && ref in c[i].objects ensures ref in c[i + 1].objects {
      if i + 1 < |b| {
        assert b[i] == c[i] && b[i + 1] == c[i + 1];
      }
    }
  }

  lemma SameWorld(before: seq<World>, after: seq<World>, j: nat)
    requires Extends(before, after) && j < |before|
    ensures j < |after| && after[j] == before[j]
  {
  }

  lemma SeenExtends(past: seq<World>, after: seq<World>, from: nat, to: nat, later: nat, backend: Backend, c: Class, ref: Ref)
    requires Extends(past, after) && from <= to < |past| && to <= later < |after|
    requires !SeenThroughout(past, from, to, backend, c, ref)
    ensures !SeenThroughout(after, from, later, backend, c, ref)
  {
    var j :| from <= j <= to && !RefBy(past[j], backend, c, ref);
    SameWorld(past, after, j);
  }

  lemma OldExtends(past: seq<World>, after: seq<World>, from: nat, to: nat, ref: Ref, cutoff: Time)
    requires Extends(past, after) && from <= to < |past| && OldOnce(past, from, to, ref, cutoff)
    ensures to < |after| && OldOnce(after, from, to, ref, cutoff)
  {
    var j :| from <= j <= to && IsOld(past[j], ref, cutoff);
    SameWorld(past, after, j);
  }

  lemma DeletedExtends(past: seq<World>, after: seq<World>, g: Sweep, lo: nat, l: Listing, r: Recheck, ref: Ref, at: nat, later: nat)
    requires Extends(past, after) && DeletedAfter(past, g, lo, l, r, ref, at) && at <= later < |after|
    ensures DeletedAfter(after, g, lo, l, r, ref, later)
  {
    hide SeenThroughout, KeyBelongsToClass, OldOnce, Extends;
    OldExtends(past, after, l.from, l.to, ref, g.cutoff);
    forall i | 0 <= i < |g.classes| ensures !SeenThroughout(after, r.from, r.to, g.backend, g.classes[i], ref) {
      SeenExtends(past, after, r.from, r.to, r.to, g.backend, g.classes[i], ref);
    }
  }

  /** One journal continues the other. */
  predicate Continues(jn: Journal, more: Journal) {
    jn.listings <= more.listings && jn.rechecks <= more.rechecks
  }

  lemma JustifiedExtends(past: seq<World>, after: seq<World>, jn: Journal, more: Journal, g: Sweep, lo: nat, ref: Ref, at: nat)
    requires Extends(past, after) && Continues(jn, more) && Justified(past, jn, g, lo, ref, at)
    ensures Justified(after, more, g, lo, ref, at)
  {
    hide DeletedAfter, Extends;
    var m, n :| 0 <= m < |jn.listings| && 0 <= n < |jn.rechecks| &&
                DeletedAfter(past, g, lo, jn.listings[m], jn.rechecks[n], ref, at);
    AtWithin(past, after, g, lo, jn.listings[m], jn.rechecks[n], ref, at);
    DeletedExtends(past, after, g, lo, jn.listings[m], jn.rechecks[n], ref, at, at);
    assert more.listings[m] == jn.listings[m] && more.rechecks[n] == jn.rechecks[n];
  }

  lemma AtWithin(past: seq<World>, after: seq<World>, g: Sweep, lo: nat, l: Listing, r: Recheck, ref: Ref, at: nat)
    requires Extends(past, after) && DeletedAfter(past, g, lo, l, r, ref, at)
    ensures at < |after|
  {
  }

  /** More worlds and a longer journal: whatever vanished in the new worlds is all that is left to justify. */
  lemma PassGoesOn(past: seq<World>, after: seq<World>, jn: Journal, more: Journal, g: Sweep, lo: nat)
    requires Pass(past, jn, g, lo) && Extends(past, after) && Continues(jn, more) && InRange(after, more, lo)
    requires forall i, ref :: |past| - 1 <= i && Vanishes(after, ref, i) ==> Justified(after, more, g, lo, ref, i)
    ensures Pass(after, more, g, lo)
  {
    hide Justified, Continues, InRange;
    forall i, ref | lo <= i && Vanishes(after, ref, i) ensures Justified(after, more, g, lo, ref, i) {
      if i + 1 < |past| {
        assert past[i] == after[i] && past[i + 1] == after[i + 1];
        assert Vanishes(past, ref, i);
        JustifiedExtends(past, after, jn, more, g, lo, ref, i);
      }
    }
  }

  /** Nothing vanished. */
  lemma PassWaits(past: seq<World>, after: seq<World>, jn: Journal, more: Journal, g: Sweep, lo: nat)
    requires Pass(past, jn, g, lo) && Extends(past, after) && NoLoss(after, |past| - 1)
    requires Continues(jn, more) && InRange(after, more, lo)
    ensures Pass(after, more, g, lo)
  {
    hide Justified, Continues, InRange, Extends;
    assert forall i, ref :: |past| - 1 <= i ==> !Vanishes(after, ref, i);
    PassGoesOn(past, after, jn, more, g, lo);
  }

  /** One object is deleted. */
  lemma PassDeletes(past: seq<World>, jn: Journal, g: Sweep, lo: nat, ref: Ref)
    requires Pass(past, jn, g, lo) && Justified(past, jn, g, lo, ref, |past| - 1)
    ensures var last := past[|past| - 1];
            Pass(past + [last.(objects := last.objects - {ref})], jn, g, lo)
  {
    hide Justified;
    var last := past[|past| - 1];
    var after := past + [last.(objects := last.objects - {ref})];
    forall i, r | |past| - 1 <= i && Vanishes(after, r, i) ensures Justified(after, jn, g, lo, r, i) {
      JustifiedExtends(past, after, jn, jn, g, lo, ref, |past| - 1);
    }
    PassGoesOn(past, after, jn, jn, g, lo);
  }

  lemma PassStarts(past: seq<World>, g: Sweep)
    requires past != []
    ensures Pass(past, Journal([], []), g, |past| - 1)
  {
  }

  lemma InRangeLater(past: seq<World>, after: seq<World>, jn: Journal, lo: nat)
    requires InRange(past, jn, lo) && Extends(past, after)
    ensures InRange(after, jn, lo) && Continues(jn, jn)
  {
  }

  // ----- Listings and references -----

  ghost predicate Distinct(listed: seq<Object>) {
    forall i, j :: 0 <= i < j < |listed| ==> listed[i].key != listed[j].key
  }

  /** The object stood in some world of the stretch as it was listed. */
  ghost predicate Stood(past: seq<World>, from: nat, to: nat, o: Object)
    requires to < |past|
  {
    exists j :: from <= j <= to && o.key in past[j].objects && past[j].objects[o.key] == o.modified
  }

  /** Pages taken one after another while the bucket changes. */
  ghost predicate ListsDuring(past: seq<World>, from: nat, to: nat, c: Class, listed: seq<Object>)
    requires from <= to < |past|
  {
    && (forall i :: 0 <= i < |listed| ==> KeyBelongsToClass(listed[i].key, c) && Stood(past, from, to, listed[i]))
    && (forall key :: key in past[from].objects && KeyBelongsToClass(key, c) ==> HasKey(listed, key))
    && Distinct(listed)
  }

  predicate HasKey(listed: seq<Object>, key: Ref) {
    exists i :: 0 <= i < |listed| && listed[i].key == key
  }

  /** References of one source: ListAllStorageRefs. */
  function SourceRefs(w: World, backend: Backend, c: Class): set<Ref> {
    if c !in w.sources then {}
    else set id | id in w.sources[c] && w.sources[c][id].backend == backend :: w.sources[c][id].ref
  }

  lemma SourceRefsAre(w: World, backend: Backend, c: Class, ref: Ref)
    ensures ref in SourceRefs(w, backend, c) <==> RefBy(w, backend, c, ref)
  {
    if RefBy(w, backend, c, ref) {
      var id :| id in w.sources[c] && w.sources[c][id] == Row(ref, backend);
      assert w.sources[c][id].backend == backend && w.sources[c][id].ref in SourceRefs(w, backend, c);
    }
  }

  /** The source references the object in some world of the stretch. */
  ghost predicate SeenOnce(past: seq<World>, from: nat, to: nat, backend: Backend, c: Class, ref: Ref)
    requires to < |past|
  {
    exists j :: from <= j <= to && RefBy(past[j], backend, c, ref)
  }

  /** What the first `n` sources were asked for, one after another since world `from`. */
  ghost predicate Collected(past: seq<World>, from: nat, backend: Backend, classes: seq<Class>, n: nat, refs: set<Ref>)
    requires from < |past| && n <= |classes|
  {
    && (forall i, ref :: 0 <= i < n && SeenThroughout(past, from, |past| - 1, backend, classes[i], ref) ==> ref in refs)
    && (forall ref :: ref in refs ==> CollectedFrom(past, from, backend, classes, n, ref))
  }

  ghost predicate CollectedFrom(past: seq<World>, from: nat, backend: Backend, classes: seq<Class>, n: nat, ref: Ref)
    requires from < |past| && n <= |classes|
  {
    exists i :: 0 <= i < n && SeenOnce(past, from, |past| - 1, backend, classes[i], ref)
  }

  /** One more source asked, in the world as it is now. */
  lemma CollectsMore(past: seq<World>, after: seq<World>, from: nat, backend: Backend, classes: seq<Class>, n: nat, refs: set<Ref>)
    requires from < |past| && n < |classes| && Extends(past, after) && Collected(past, from, backend, classes, n, refs)
    ensures |past| <= |after|
    ensures Collected(after, from, backend, classes, n + 1, refs + SourceRefs(after[|after| - 1], backend, classes[n]))
  {
    hide RefBy, SourceRefs;
    var now := after[|after| - 1];
    var more := refs + SourceRefs(now, backend, classes[n]);
    forall i, ref | 0 <= i < n + 1 && SeenThroughout(after, from, |after| - 1, backend, classes[i], ref)
      ensures ref in more
    {
      if i == n {
        SourceRefsAre(now, backend, classes[n], ref);
      } else {
        SeenBefore(past, after, from, backend, classes[i], ref);
      }
    }
    forall ref | ref in more ensures CollectedFrom(after, from, backend, classes, n + 1, ref) {
      if ref in refs {
        var i :| 0 <= i < n && SeenOnce(past, from, |past| - 1, backend, classes[i], ref);
        SeenOnceExtends(past, after, from, backend, classes[i], ref);
      } else {
        SourceRefsAre(now, backend, classes[n], ref);
        assert SeenOnce(after, from, |after| - 1, backend, classes[n], ref);
      }
    }
  }

  lemma SeenBefore(past: seq<World>, after: seq<World>, from: nat, backend: Backend, c: Class, ref: Ref)
    requires from < |past| && Extends(past, after) && SeenThroughout(after, from, |after| - 1, backend, c, ref)
    ensures SeenThroughout(past, from, |past| - 1, backend, c, ref)
  {
    forall j | from <= j <= |past| - 1 ensures RefBy(past[j], backend, c, ref) {
      SameWorld(past, after, j);
    }
  }

  lemma SeenOnceExtends(past: seq<World>, after: seq<World>, from: nat, backend: Backend, c: Class, ref: Ref)
    requires from < |past| && Extends(past, after) && SeenOnce(past, from, |past| - 1, backend, c, ref)
    ensures SeenOnce(after, from, |after| - 1, backend, c, ref)
  {
    var j :| from <= j <= |past| - 1 && RefBy(past[j], backend, c, ref);
    SameWorld(past, after, j);
  }

  /** In a world that stands still the collection is exact. */
  lemma CollectedStill(past: seq<World>, from: nat, backend: Backend, classes: seq<Class>, refs: set<Ref>)
    requires from < |past| && Collected(past, from, backend, classes, |classes|, refs)
    requires forall j :: from <= j < |past| ==> past[j] == past[|past| - 1]
    ensures forall ref :: ref in refs <==> Referenced(past[|past| - 1], backend, classes, ref)
  {
    hide RefBy;
    var w := past[|past| - 1];
    forall ref ensures ref in refs <==> Referenced(w, backend, classes, ref) {
      if ref in refs {
        assert CollectedFrom(past, from, backend, classes, |classes|, ref);
      }
      if Referenced(w, backend, classes, ref) {
        var i :| 0 <= i < |classes| && RefBy(w, backend, classes[i], ref);
        assert SeenThroughout(past, from, |past| - 1, backend, classes[i], ref);
      }
    }
  }

  /** The first `n` sources were each seen without the reference. */
  ghost predicate FirstUnseen(
    past: seq<World>, from: nat, backend: Backend, classes: seq<Class>, n: nat, ref: Ref)
    requires from < |past| && n <= |classes|
  {
    forall i :: 0 <= i < n ==> !SeenThroughout(past, from, |past| - 1, backend, classes[i], ref)
  }

  lemma FirstUnseenExtends(
    past: seq<World>, after: seq<World>, from: nat, backend: Backend, classes: seq<Class>, n: nat, ref: Ref)
    requires from < |past| && n <= |classes| && Extends(past, after) && FirstUnseen(past, from, backend, classes, n, ref)
    ensures FirstUnseen(after, from, backend, classes, n, ref)
  {
    hide SeenThroughout;
    forall i | 0 <= i < n ensures !SeenThroughout(after, from, |after| - 1, backend, classes[i], ref) {
      SeenExtends(past, after, from, |past| - 1, |after| - 1, backend, classes[i], ref);
    }
  }

  lemma UnseenNow(past: seq<World>, from: nat, backend: Backend, classes: seq<Class>, n: nat, ref: Ref)
    requires from < |past| && n < |classes| && FirstUnseen(past, from, backend, classes, n, ref)
    requires !RefBy(past[|past| - 1], backend, classes[n], ref)
    ensures FirstUnseen(past, from, backend, classes, n + 1, ref)
  {
  }

  lemma NobodyAsked(past: seq<World>, w: World, backend: Backend, classes: seq<Class>, ref: Ref)
    requires past != []
    ensures Extends(past, past) && NoLoss(past, |past| - 1)
    ensures FirstUnseen(past, |past| - 1, backend, classes, 0, ref) && !Referenced(w, backend, classes[..0], ref)
  {
  }

  lemma NothingCollected(past: seq<World>, backend: Backend, classes: seq<Class>)
    requires past != []
    ensures Extends(past, past) && NoLoss(past, |past| - 1) && Collected(past, |past| - 1, backend, classes, 0, {})
  {
  }

  class Service {
    const backend: Backend
    const classes: seq<Class>
    const graceWindow: nat
    /** How the bucket cuts its keys into pages; the page after the last takes the rest. */
    const pages: nat
    const pageOf: Ref -> nat
    var world: World
    var script: seq<Turn>
    ghost var past: seq<World>   // every world so far; the last one is current
    ghost var journal: Journal   // this pass's listings and rechecks

    ghost predicate Valid()
      reads `world, `past
    {
      past != [] && past[|past| - 1] == world && NoDups(classes)
    }

    ghost predicate InPass(cutoff: Time, lo: nat)
      reads `past, `journal
    {
      Pass(past, journal, Sweep(backend, classes, cutoff), lo)
    }

    constructor (backend: Backend, classes: seq<Class>, graceWindow: nat, pages: nat, pageOf: Ref -> nat,
                 world: World, script: seq<Turn>)
      requires NoDups(classes)
      ensures Valid() && past == [world] && this.script == script
      ensures this.backend == backend && this.classes == classes && this.graceWindow == graceWindow
    {
      this.backend, this.classes, this.graceWindow := backend, classes, graceWindow;
      this.pages, this.pageOf := pages, pageOf;
      this.world, this.script := world, script;
      past, journal := [world], Journal([], []);
    }

    /** Everyone else runs up to the next call, which may fail. */
    method Pause() returns (ok: bool)
      requires Valid()
      modifies `world, `script, `past
      ensures Valid() && Extends(old(past), past) && NoLoss(past, |old(past)| - 1)
      ensures old(script) == [] ==> ok && script == [] && past == old(past)
      ensures old(script) != [] ==>
                var turn := old(script)[0];
                ok == !turn.fails && script == old(script)[1..] && world == ChangedBy(old(world), turn.changes)
    {
      if script == [] {
        NothingNew(past);
        return true;
      }
      hide Extends, NoLoss, Changed;
      NothingNew(past);
      var turn := script[0];
      script := script[1..];
      for i := 0 to |turn.changes|
        invariant Valid() && |old(past)| <= |past| && Extends(old(past), past) && NoLoss(past, |old(past)| - 1)
        invariant script == old(script)[1..] && world == ChangedBy(old(world), turn.changes[..i])
      {
        ghost var before := past;
        ChangedMore(old(world), turn.changes, i);
        OneChange(past, turn.changes[i]);
        world := Changed(world, turn.changes[i]);
        past := past + [world];
        Later(old(past), before, past);
      }
      assert turn.changes[..|turn.changes|] == turn.changes;
      ok := !turn.fails;
    }

    function PageNo(key: Ref): nat {
      if pageOf(key) < pages then pageOf(key) else pages
    }

    /** One page: the objects of the class among its keys, as they are now. */
    method ListPage(p: nat, c: Class) returns (page: seq<Object>)
      ensures IsPage(p, c, page)
    {
      hide KeyBelongsToClass;
      page := [];
      var left := world.objects.Keys;
      while left != {}
        invariant left <= world.objects.Keys
        invariant forall i :: 0 <= i < |page| ==> OnPage(page[i], p, c) && page[i].key !in left
        invariant forall key :: key in world.objects && key !in left && KeyBelongsToClass(key, c) && PageNo(key) == p ==>
                    Object(key, world.objects[key]) in page
        invariant Distinct(page)
      {
        var key :| key in left;
        left := left - {key};
        if PageNo(key) == p && KeyBelongsToClass(key, c) {
          page := page + [Object(key, world.objects[key])];
        }
      }
    }

    /** An object of this page and class, as it stands. */
    predicate OnPage(o: Object, p: nat, c: Class)
      reads `world
    {
      && o.key in world.objects && world.objects[o.key] == o.modified
      && PageNo(o.key) == p && KeyBelongsToClass(o.key, c)
    }

    /** What the pages before the `p`-th gave, from world `from` to the last of `past`. */
    ghost predicate PagesBefore(past: seq<World>, p: nat, c: Class, from: nat, listed: seq<Object>)
      requires from < |past|
    {
      && (forall i :: 0 <= i < |listed| ==>
            KeyBelongsToClass(listed[i].key, c) && PageNo(listed[i].key) < p && Stood(past, from, |past| - 1, listed[i]))
      && (forall key :: key in past[from].objects && KeyBelongsToClass(key, c) && PageNo(key) < p ==> HasKey(listed, key))
      && Distinct(listed)
    }

    /** The paging loop; other calls run between two pages. */
    method ListObjects(c: Class) returns (listed: seq<Object>, ok: bool)
      requires Valid()
      modifies `world, `script, `past
      ensures Valid() && Extends(old(past), past) && NoLoss(past, |old(past)| - 1) && |old(past)| <= |past|
      ensures ok ==> ListsDuring(past, |old(past)| - 1, |past| - 1, c, listed)
      ensures old(script) == [] ==> ok && script == [] && past == old(past)
    {
      hide KeyBelongsToClass, Extends, NoLoss, Distinct, PagesBefore, IsPage;
      listed, ok := [], true;
      NothingNew(past);
      NoPages(c);
      for p := 0 to pages + 1
        invariant Valid() && |old(past)| <= |past| && Extends(old(past), past) && NoLoss(past, |old(past)| - 1)
        invariant ok
        invariant PagesBefore(past, p, c, |old(past)| - 1, listed)
        invariant old(script) == [] ==> script == [] && past == old(past)
      {
        ghost var before := past;
        ok := Pause();
        Later(old(past), before, past);
        if !ok {
          return;
        }
        var page := ListPage(p, c);
        PageAdds(p, c, |old(past)| - 1, before, listed, page);
        listed := listed + page;
      }
      AllPages(c, |old(past)| - 1, listed);
    }

    lemma NoPages(c: Class)
      requires Valid()
      ensures PagesBefore(past, 0, c, |past| - 1, [])
    {
    }

    lemma AllPages(c: Class, from: nat, listed: seq<Object>)
      requires from < |past| && PagesBefore(past, pages + 1, c, from, listed)
      ensures ListsDuring(past, from, |past| - 1, c, listed)
    {
    }

    /** What ListPage gives. */
    ghost predicate IsPage(p: nat, c: Class, page: seq<Object>)
      reads `world
    {
      && (forall i :: 0 <= i < |page| ==> OnPage(page[i], p, c))
      && (forall key :: key in world.objects && KeyBelongsToClass(key, c) && PageNo(key) == p ==>
            Object(key, world.objects[key]) in page)
      && Distinct(page)
    }

    /** A page's objects join those of the pages before it. */
    lemma PageAdds(p: nat, c: Class, from: nat, before: seq<World>, listed: seq<Object>, page: seq<Object>)
      requires Valid() && from < |before| && Extends(before, past) && NoLoss(past, from)
      requires p <= pages && PagesBefore(before, p, c, from, listed) && IsPage(p, c, page)
      ensures |before| <= |past| && PagesBefore(past, p + 1, c, from, listed + page)
    {
      hide KeyBelongsToClass, Stood, HasKey, Distinct, NoLoss, PageNo;
      var both := listed + page;
      forall i | 0 <= i < |both|
        ensures KeyBelongsToClass(both[i].key, c) && PageNo(both[i].key) < p + 1 && Stood(past, from, |past| - 1, both[i])
      {
        if i < |listed| {
          StoodExtends(before, past, from, listed[i]);
        } else {
          assert OnPage(page[i - |listed|], p, c);
          StandsNow(past, from, page[i - |listed|]);
        }
      }
      forall key | key in past[from].objects && KeyBelongsToClass(key, c) && PageNo(key) < p + 1
        ensures HasKey(both, key)
      {
        SameWorld(before, past, from);
        if PageNo(key) == p {
          NeverLost(past, from, |past| - 1, key);
          assert Object(key, world.objects[key]) in page;
        }
        KeyJoins(listed, page, key);
      }
      assert forall i, j :: 0 <= i < |listed| && 0 <= j < |page| ==> OnPage(page[j], p, c) && listed[i].key != page[j].key;
      DistinctJoins(listed, page);
    }

    /** The bulk snapshot of what any source references. */
    method ReferencedRefs() returns (refs: set<Ref>, ok: bool)
      requires Valid()
      modifies `world, `script, `past
      ensures Valid() && Extends(old(past), past) && NoLoss(past, |old(past)| - 1) && |old(past)| <= |past|
      ensures ok ==> Collected(past, |old(past)| - 1, backend, classes, |classes|, refs)
      ensures old(script) == [] ==> ok && script == [] && past == old(past) && IsSnapshot(world, backend, classes, refs)
    {
      hide Extends, NoLoss, Collected, IsSnapshot;
      refs, ok := {}, true;
      NothingCollected(past, backend, classes);
      for i := 0 to |classes|
        invariant Valid() && |old(past)| <= |past| && Extends(old(past), past) && NoLoss(past, |old(past)| - 1)
        invariant ok
        invariant Collected(past, |old(past)| - 1, backend, classes, i, refs)
        invariant old(script) == [] ==> script == [] && past == old(past)
      {
        ghost var before := past;
        ok := Pause();
        Later(old(past), before, past);
        if !ok {
          return;
        }
        CollectsMore(before, past, |old(past)| - 1, backend, classes, i, refs);
        refs := refs + SourceRefs(world, backend, classes[i]);
      }
      if old(script) == [] {
        StillSnapshot(refs);
      }
    }

    lemma StillSnapshot(refs: set<Ref>)
      requires Valid() && Collected(past, |past| - 1, backend, classes, |classes|, refs)
      ensures IsSnapshot(world, backend, classes, refs)
    {
      hide Collected, Referenced;
      CollectedStill(past, |past| - 1, backend, classes, refs);
    }

    /** Asks the `n`-th source; those before it were asked since world `from`. */
    method AskSource(n: nat, ref: Ref, ghost from: nat) returns (found: bool, ok: bool)
      requires Valid() && n < |classes| && from < |past| && FirstUnseen(past, from, backend, classes, n, ref)
      modifies `world, `script, `past
      ensures Valid() && Extends(old(past), past) && NoLoss(past, |old(past)| - 1) && from < |past|
      ensures ok && !found ==> FirstUnseen(past, from, backend, classes, n + 1, ref)
      ensures ok ==> found == RefBy(world, backend, classes[n], ref)
      ensures old(script) == [] ==> ok && script == [] && past == old(past)
    {
      hide RefBy, SeenThroughout, FirstUnseen, NoLoss;
      found := false;
      ok := Pause();
      if ok {
        FirstUnseenExtends(old(past), past, from, backend, classes, n, ref);
        found := RefBy(world, backend, classes[n], ref);
        if !found {
          UnseenNow(past, from, backend, classes, n, ref);
        }
      }
    }

    /** The recheck: one question to each source in turn. */
    method ExistsByStorageRef(ref: Ref) returns (exists_: bool, ok: bool)
      requires Valid()
      modifies `world, `script, `past
      ensures Valid() && Extends(old(past), past) && NoLoss(past, |old(past)| - 1) && |old(past)| <= |past|
      ensures ok && !exists_ ==> FirstUnseen(past, |old(past)| - 1, backend, classes, |classes|, ref)
      ensures ok && exists_ ==> Referenced(world, backend, classes, ref)
      ensures old(script) == [] ==> ok && script == [] && past == old(past)
      ensures old(script) == [] ==> exists_ == Referenced(world, backend, classes, ref)
    {
      hide Extends, NoLoss, SeenThroughout, RefBy, FirstUnseen, Referenced;
      exists_, ok := false, true;
      NobodyAsked(past, world, backend, classes, ref);
      for n := 0 to |classes|
        invariant Valid() && |old(past)| <= |past| && Extends(old(past), past) && NoLoss(past, |old(past)| - 1)
        invariant ok && !exists_
        invariant FirstUnseen(past, |old(past)| - 1, backend, classes, n, ref)
        invariant old(script) == [] ==> script == [] && past == old(past)
        invariant old(script) == [] ==> !Referenced(world, backend, classes[..n], ref)
      {
        ghost var before := past;
        exists_, ok := AskSource(n, ref, |old(past)| - 1);
        Later(old(past), before, past);
        ReferencedGrows(world, backend, classes, n, ref);
        if !ok || exists_ {
          return;
        }
      }
      assert classes[..|classes|] == classes;
    }

    /** Listed, old enough when listed, and not in the snapshot. */
    method OrphanCandidates(c: Class, cutoff: Time, referenced: set<Ref>) returns (found: seq<Ref>, ok: bool)
      requires Valid()
      modifies `world, `script, `past
      ensures Valid() && Extends(old(past), past) && NoLoss(past, |old(past)| - 1) && |old(past)| <= |past|
      ensures ok ==> NoDups(found)
      ensures ok ==> forall ref :: ref in found ==>
                KeyBelongsToClass(ref, c) && ref !in referenced && OldOnce(past, |old(past)| - 1, |past| - 1, ref, cutoff)
      ensures ok ==> forall ref :: KeyBelongsToClass(ref, c) && ref !in referenced ==>
                (OldThroughout(past, |old(past)| - 1, |past| - 1, ref, cutoff) ==> ref in found)
      ensures old(script) == [] ==> ok && script == [] && past == old(past)
    {
      hide KeyBelongsToClass, Extends, NoLoss, ListsDuring, NoDups;
      ghost var from := |past| - 1;
      found := [];
      var listed;
      listed, ok := ListObjects(c);
      if !ok {
        return;
      }
      NothingPicked(listed, cutoff, referenced);
      ghost var seen, left := past, script;
      for i := 0 to |listed|
        invariant Valid() && past == seen && script == left
        invariant Picked(listed[..i], cutoff, referenced, found)
      {
        PickNext(listed, i, cutoff, referenced, found);
        if listed[i].key in referenced {
          continue;
        }
        if listed[i].modified > cutoff {
          continue;
        }
        found := found + [listed[i].key];
      }
      assert listed[..|listed|] == listed;
      PickedOfListing(past, from, |past| - 1, c, cutoff, referenced, listed, found);
    }

    /**
     store.Delete on a rechecked candidate; a row may still appear before it takes effect, and it may
     take effect although it reports a failure.
     */
    method DeleteObject(ref: Ref, cutoff: Time, ghost lo: nat, ghost l: Listing, ghost r: Recheck) returns (ok: bool)
      requires Valid() && InPass(cutoff, lo) && l in journal.listings && r in journal.rechecks
      requires DeletedAfter(past, Sweep(backend, classes, cutoff), lo, l, r, ref, |past| - 1)
      modifies `world, `script, `past
      ensures Valid() && InPass(cutoff, lo) && Extends(old(past), past)
      ensures old(script) == [] ==> ok && script == [] && world == old(world).(objects := old(world).objects - {ref})
      ensures ok ==> ref !in world.objects
      ensures old(script) != [] ==>
                var turn, w := old(script)[0], ChangedBy(old(world), old(script)[0].changes);
                ok == !turn.fails && world == if ok || turn.lands then w.(objects := w.objects - {ref}) else w
    {
      hide Justified, Pass, Extends, NoLoss, DeletedAfter;
      ghost var g := Sweep(backend, classes, cutoff);
      var lands := script != [] && script[0].lands;
      ok := Pause();
      PassPauses(old(past), past, journal, g, lo);
      if ok || lands {
        DeletionLater(old(past), past, journal, g, lo, l, r, ref);
        PassDeletes(past, journal, g, lo, ref);
        OneMore(old(past), past, world.(objects := world.objects - {ref}));
        world := world.(objects := world.objects - {ref});
        past := past + [world];
      }
    }

    /** One candidate: a targeted recheck right before the delete, which a reference found calls off. */
    method SweepOne(ref: Ref, c: Class, cutoff: Time, ghost lo: nat, ghost l: Listing, ghost done: seq<Ref>, ghost deleted: nat)
      returns (gone: bool, ok: bool)
      requires Valid() && InPass(cutoff, lo) && l in journal.listings && l.class_ == c
      requires lo <= l.from <= l.to < |past| && KeyBelongsToClass(ref, c) && OldOnce(past, l.from, l.to, ref, cutoff)
      requires Sweeping(past, Sweep(backend, classes, cutoff), journal.rechecks, c, l.to, done, deleted)
      modifies `world, `script, `past, `journal
      ensures Valid() && InPass(cutoff, lo) && Extends(old(past), past)
      ensures journal.listings == old(journal).listings && AddsOnly(old(journal).rechecks, journal.rechecks, c)
      ensures ok ==> Sweeping(past, Sweep(backend, classes, cutoff), journal.rechecks, c, l.to, done + [ref],
                              if gone then deleted + 1 else deleted)
      ensures old(script) == [] ==>
                && ok && script == [] && gone == !Referenced(old(world), backend, classes, ref)
                && world == if gone then old(world).(objects := old(world).objects - {ref}) else old(world)
    {
      hide Pass, Extends, NoLoss, Referenced, FirstUnseen, KeyBelongsToClass, OldOnce, DeletedAfter, NoDups, Sweeping, AddsOnly,
           ActedOn, ListedClasses;
      gone := false;
      ghost var g, rechecks := Sweep(backend, classes, cutoff), journal.rechecks;
      var exists_;
      exists_, ok := ExistsByStorageRef(ref);
      PassPauses(old(past), past, journal, g, lo);
      ghost var r := Recheck(c, ref, |old(past)| - 1, |past| - 1, ok && !exists_);
      JournalRechecks(old(past), past, journal, g, lo, r);
      journal := journal.(rechecks := journal.rechecks + [r]);
      AddsOneMore(rechecks, c, r);
      if !ok {
        return;
      }
      SweepingLater(old(past), past, g, rechecks, c, l.to, done, deleted);
      if exists_ {
        Spared(past, g, r);
        SweepsOn(past, g, rechecks, c, l.to, done, deleted, r);
        return;
      }
      RecheckedInVain(old(past), past, g, lo, l, r);
      ghost var rechecked := past;
      ok := DeleteObject(ref, cutoff, lo, l, r);
      ExtendsBoth(old(past), rechecked, past);
      if ok {
        gone := true;
        SweepingLater(rechecked, past, g, rechecks, c, l.to, done, deleted);
        Gone(rechecked, past, g, r);
        SweepsOn(past, g, rechecks, c, l.to, done, deleted, r);
      }
    }

    /** One class: its candidates, each rechecked and deleted. */
    method SweepClass(c: Class, cutoff: Time, referenced: set<Ref>, ghost lo: nat) returns (deleted: nat, ok: bool)
      requires Valid() && InPass(cutoff, lo) && c in classes
      requires SnapshotSeen(past, Sweep(backend, classes, cutoff), lo, referenced)
      requires Unswept(past, Sweep(backend, classes, cutoff), journal.rechecks, c)
      modifies `world, `script, `past, `journal
      ensures Valid() && InPass(cutoff, lo) && Extends(old(past), past)
      ensures ok ==> ListedClasses(journal) == ListedClasses(old(journal)) + [c]
      ensures ok ==> SweepEnded(past, Sweep(backend, classes, cutoff), lo, old(journal), journal, c, deleted)
      ensures old(script) == [] && IsSnapshot(old(world), backend, classes, referenced) ==>
                && ok && script == [] && deleted == |Orphans(old(world), backend, classes, c, cutoff)|
                && world == old(world).(objects := old(world).objects - Orphans(old(world), backend, classes, c, cutoff))
    {
      hide Pass, Extends, NoLoss, Referenced, FirstUnseen, KeyBelongsToClass, Members, ListedClasses, OldOnce, OldThroughout,
           DeletedAfter, IsSnapshot, Orphans, NoDups, SnapshotSeen, Unswept, PicksRightly, Sweeping, AddsOnly, ActedOn, SweepEnded;
      deleted := 0;
      var found;
      ghost var g := Sweep(backend, classes, cutoff);
      found, ok := OrphanCandidates(c, cutoff, referenced);
      PassPauses(old(past), past, journal, g, lo);
      if !ok {
        return;
      }
      ghost var l := Listing(c, |old(past)| - 1, |past| - 1, found);
      SnapshotStillSeen(old(past), past, g, lo, referenced);
      PickedRightly(past, g, lo, l, referenced);
      SweepBegins(old(past), past, g, journal.rechecks, c, l.to);
      JournalLists(old(past), past, journal, g, lo, l);
      journal := journal.(listings := journal.listings + [l]);
      ghost var at, alone := past, old(script) == [] && IsSnapshot(old(world), backend, classes, referenced);
      if alone {
        AloneCandidates(past, backend, classes, c, cutoff, referenced, found);
      }
      NothingNew(past);
      NoMembers(found);
      for i := 0 to |found|
        invariant Valid() && InPass(cutoff, lo) && Extends(at, past) && Extends(old(past), past)
        invariant ok && |at| <= |past|
        invariant l in journal.listings && ListedClasses(journal) == ListedClasses(old(journal)) + [c]
        invariant journal.listings == old(journal).listings + [l] && AddsOnly(old(journal).rechecks, journal.rechecks, c)
        invariant Sweeping(past, g, journal.rechecks, c, l.to, found[..i], deleted)
        invariant alone ==> script == [] && deleted == i && world == old(world).(objects := old(world).objects - Members(found[..i]))
      {
        ghost var before, rechecks := past, journal.rechecks;
        OldExtends(at, past, l.from, l.to, found[i], cutoff);
        if alone {
          StillOrphan(old(world), world, backend, classes, c, cutoff, found, i);
        }
        var gone;
        gone, ok := SweepOne(found[i], c, cutoff, lo, l, found[..i], deleted);
        ExtendsBoth(at, before, past);
        ExtendsBoth(old(past), at, past);
        if !ok {
          return;
        }
        AddsBoth(old(journal).rechecks, rechecks, journal.rechecks, c);
        SameListings(journal, old(journal), c, l);
        NextFound(found, i);
        MembersGrow(found, i);
        if gone {
          deleted := deleted + 1;
        }
      }
      assert found[..|found|] == found;
      PicksExtend(at, past, g, lo, l);
      SweepEnds(past, g, lo, old(journal), journal, l, deleted);
    }

    /** One pass: snapshot the references once, then sweep class by class. */
    method Run(now: Time) returns (result: map<Class, nat>, ok: bool)
      requires Valid()
      modifies `world, `script, `past, `journal
      ensures Valid() && Extends(old(past), past)
      ensures Pass(past, journal, Sweep(backend, classes, now - graceWindow), |old(past)| - 1)
      ensures ok ==> ListedClasses(journal) == classes
      ensures ok ==> Thorough(past, journal, Sweep(backend, classes, now - graceWindow), |old(past)| - 1, result)
      ensures !ok ==> result == map[]
      ensures old(script) == [] ==>
                && ok && script == []
                && world == old(world).(objects := Swept(old(world), backend, classes, now - graceWindow, |classes|))
                && Counts(result, old(world), now - graceWindow, |classes|)
    {
      hide Pass, Extends, NoLoss, Referenced, Orphans, ListedClasses, Collected, IsSnapshot, Counts, NoDups, SnapshotSeen,
           SweptSoFar, SweepEnded, Thorough, Unswept;
      journal := Journal([], []);
      PassStarts(past, Sweep(backend, classes, now - graceWindow));
      result := map[];
      var referenced;
      referenced, ok := ReferencedRefs();
      PassPauses(old(past), past, journal, Sweep(backend, classes, now - graceWindow), |old(past)| - 1);
      if !ok {
        return;
      }
      var cutoff := now - graceWindow;
      ghost var g, lo := Sweep(backend, classes, cutoff), |old(past)| - 1;
      SnapshotWasSeen(past, g, lo, referenced);
      NothingSwept(past, g, lo);
      NothingListed();
      NothingCounted(world, cutoff);
      for i := 0 to |classes|
        invariant Valid() && InPass(cutoff, lo) && Extends(old(past), past)
        invariant ok && ListedClasses(journal) == classes[..i]
        invariant SnapshotSeen(past, g, lo, referenced) && SweptSoFar(past, journal, g, lo, result, i)
        invariant old(script) == [] ==> script == [] && IsSnapshot(old(world), backend, classes, referenced)
        invariant old(script) == [] ==> world == old(world).(objects := Swept(old(world), backend, classes, cutoff, i))
        invariant old(script) == [] ==> Counts(result, old(world), cutoff, i)
      {
        ghost var before, jn := past, journal;
        if old(script) == [] {
          SweepsAreSeparate(old(world), backend, classes, cutoff, i);
          SameSnapshot(old(world), world, backend, classes, referenced);
        }
        StillUnswept(past, journal, g, lo, result, i);
        var deleted;
        deleted, ok := SweepClass(classes[i], cutoff, referenced, lo);
        ExtendsBoth(old(past), before, past);
        if !ok {
          return map[], false;
        }
        assert classes[..i + 1] == classes[..i] + [classes[i]];
        if old(script) == [] {
          CountsGrow(result, old(world), cutoff, i);
        }
        SnapshotStillSeen(before, past, g, lo, referenced);
        ClassSwept(before, past, jn, journal, g, lo, result, i, deleted);
        result := result[classes[i] := deleted];
      }
      assert classes[..|classes|] == classes;
      AllSwept(past, journal, g, lo, result);
    }

    /** The first `n` classes' numbers of orphans. */
    ghost predicate Counts(result: map<Class, nat>, w: World, cutoff: Time, n: nat)
      requires n <= |classes|
    {
      && (forall c :: c in result <==> c in classes[..n])
      && (forall i :: 0 <= i < n ==> classes[i] in result && result[classes[i]] == |Orphans(w, backend, classes, classes[i], cutoff)|)
    }

    lemma NothingCounted(w: World, cutoff: Time)
      ensures Counts(map[], w, cutoff, 0) && classes[..0] == []
    {
    }

    lemma CountsGrow(result: map<Class, nat>, w: World, cutoff: Time, n: nat)
      requires n < |classes| && NoDups(classes) && Counts(result, w, cutoff, n)
      ensures Counts(result[classes[n] := |Orphans(w, backend, classes, classes[n], cutoff)|], w, cutoff, n + 1)
    {
      hide Orphans;
      assert classes[..n + 1] == classes[..n] + [classes[n]];
    }

    /** The same selection, deleting nothing. */
    method DryRun(now: Time) returns (result: map<Class, seq<Ref>>, ok: bool)
      requires Valid()
      modifies `world, `script, `past
      ensures Valid() && Extends(old(past), past) && NoLoss(past, |old(past)| - 1)
      ensures !ok ==> result == map[]
      ensures ok ==> Foreseen(past, Sweep(backend, classes, now - graceWindow), |old(past)| - 1, result, |classes|)
      ensures old(script) == [] ==> ok && script == [] && past == old(past)
      ensures old(script) == [] ==> Previews(result, old(world), now - graceWindow, |classes|)
    {
      hide Extends, NoLoss, Referenced, Orphans, KeyBelongsToClass, Members, Collected, IsSnapshot, OldOnce, OldThroughout,
           SnapshotSeen, Foreseen, NoDups;
      result := map[];
      var referenced;
      referenced, ok := ReferencedRefs();
      if !ok {
        return;
      }
      var cutoff := now - graceWindow;
      ghost var g, lo := Sweep(backend, classes, cutoff), |old(past)| - 1;
      SnapshotWasSeen(past, g, lo, referenced);
      NothingForeseen(past, g, lo);
      for i := 0 to |classes|
        invariant Valid() && |old(past)| <= |past| && Extends(old(past), past) && NoLoss(past, |old(past)| - 1)
        invariant ok && SnapshotSeen(past, g, lo, referenced) && Foreseen(past, g, lo, result, i)
        invariant old(script) == [] ==> script == [] && past == old(past) && IsSnapshot(world, backend, classes, referenced)
        invariant old(script) == [] ==> Previews(result, old(world), cutoff, i)
      {
        ghost var before := past;
        var candidates;
        candidates, ok := OrphanCandidates(classes[i], cutoff, referenced);
        Later(old(past), before, past);
        if !ok {
          return map[], false;
        }
        if old(script) == [] {
          AloneCandidates(past, backend, classes, classes[i], cutoff, referenced, candidates);
        }
        SnapshotStillSeen(before, past, g, lo, referenced);
        PickedRightly(past, g, lo, Listing(classes[i], |before| - 1, |past| - 1, candidates), referenced);
        ForeseesMore(before, past, g, lo, result, i, Listing(classes[i], |before| - 1, |past| - 1, candidates));
        result := result[classes[i] := candidates];
      }
    }

    /** The first `n` classes' orphans, each once. */
    ghost predicate Previews(result: map<Class, seq<Ref>>, w: World, cutoff: Time, n: nat)
      requires n <= |classes|
    {
      && (forall c :: c in result <==> c in classes[..n])
      && (forall i :: 0 <= i < n ==>
            && classes[i] in result && NoDups(result[classes[i]])
            && Members(result[classes[i]]) == Orphans(w, backend, classes, classes[i], cutoff))
    }
  }

  /** The snapshot holds exactly what any source references. */
  ghost predicate IsSnapshot(w: World, backend: Backend, classes: seq<Class>, referenced: set<Ref>) {
    forall ref :: ref in referenced <==> Referenced(w, backend, classes, ref)
  }

  lemma SameSnapshot(w: World, now: World, backend: Backend, classes: seq<Class>, referenced: set<Ref>)
    requires now.sources == w.sources && IsSnapshot(w, backend, classes, referenced)
    ensures IsSnapshot(now, backend, classes, referenced)
  {
    hide Referenced;
    forall ref ensures Referenced(w, backend, classes, ref) == Referenced(now, backend, classes, ref) {
      SameReferences(w, now, backend, classes, ref);
    }
  }

  lemma SameReferences(w: World, now: World, backend: Backend, classes: seq<Class>, ref: Ref)
    requires now.sources == w.sources
    ensures Referenced(w, backend, classes, ref) == Referenced(now, backend, classes, ref)
  {
    assert forall i :: 0 <= i < |classes| ==> RefBy(w, backend, classes[i], ref) == RefBy(now, backend, classes[i], ref);
  }

  function ListedClasses(jn: Journal): (r: seq<Class>)
    ensures |r| == |jn.listings|
  {
    seq(|jn.listings|, m requires 0 <= m < |jn.listings| => jn.listings[m].class_)
  }

  lemma NothingListed()
    ensures ListedClasses(Journal([], [])) == []
  {
  }

  // ----- Steps of the service's loops -----

  lemma NothingNew(past: seq<World>)
    requires past != []
    ensures Extends(past, past) && NoLoss(past, |past| - 1)
  {
  }

  lemma OneChange(past: seq<World>, c: Change)
    requires past != []
    ensures var after := past + [Changed(past[|past| - 1], c)];
            Extends(past, after) && NoLoss(after, |past| - 1)
  {
  }

  lemma StandsNow(past: seq<World>, from: nat, o: Object)
    requires from < |past| && o.key in past[|past| - 1].objects && past[|past| - 1].objects[o.key] == o.modified
    ensures Stood(past, from, |past| - 1, o)
  {
  }

  lemma KeyJoins(listed: seq<Object>, page: seq<Object>, key: Ref)
    ensures HasKey(listed, key) || (exists o :: o in page && o.key == key) ==> HasKey(listed + page, key)
  {
    var both := listed + page;
    if HasKey(listed, key) {
      var i :| 0 <= i < |listed| && listed[i].key == key;
      assert both[i].key == key;
    } else if o :| o in page && o.key == key {
      var i :| 0 <= i < |page| && page[i] == o;
      assert both[|listed| + i].key == key;
    }
  }

  lemma DistinctJoins(listed: seq<Object>, page: seq<Object>)
    requires Distinct(listed) && Distinct(page)
    requires forall i, j :: 0 <= i < |listed| && 0 <= j < |page| ==> listed[i].key != page[j].key
    ensures Distinct(listed + page)
  {
  }

  lemma StoodExtends(past: seq<World>, after: seq<World>, from: nat, o: Object)
    requires from < |past| && Extends(past, after) && Stood(past, from, |past| - 1, o)
    ensures |past| <= |after| && Stood(after, from, |after| - 1, o)
  {
    var j :| from <= j <= |past| - 1 && o.key in past[j].objects && past[j].objects[o.key] == o.modified;
    SameWorld(past, after, j);
  }

  lemma {:induction false} NeverLost(past: seq<World>, from: nat, hi: nat, key: Ref)
    requires NoLoss(past, from) && from <= hi < |past| && key in past[from].objects
    ensures key in past[hi].objects
    decreases hi
  {
    if from < hi {
      NeverLost(past, from, hi - 1, key);
    }
  }

  /** The keys of what is listed that are old and not referenced. */
  ghost predicate Picked(listed: seq<Object>, cutoff: Time, referenced: set<Ref>, found: seq<Ref>) {
    && (forall ref :: ref in found ==> IsPick(listed, cutoff, referenced, ref))
    && (forall i :: 0 <= i < |listed| && listed[i].modified <= cutoff && listed[i].key !in referenced ==> listed[i].key in found)
    && (Distinct(listed) ==> NoDups(found))
  }

  ghost predicate IsPick(listed: seq<Object>, cutoff: Time, referenced: set<Ref>, ref: Ref) {
    ref !in referenced && exists i :: 0 <= i < |listed| && listed[i].key == ref && listed[i].modified <= cutoff
  }

  lemma NothingPicked(listed: seq<Object>, cutoff: Time, referenced: set<Ref>)
    ensures Picked(listed[..0], cutoff, referenced, [])
  {
  }

  lemma PickNext(listed: seq<Object>, i: nat, cutoff: Time, referenced: set<Ref>, found: seq<Ref>)
    requires i < |listed| && Picked(listed[..i], cutoff, referenced, found)
    ensures var o := listed[i];
            Picked(listed[..i + 1], cutoff, referenced,
                   if o.key in referenced || o.modified > cutoff then found else found + [o.key])
  {
    hide NoDups;
    var o, before, now := listed[i], listed[..i], listed[..i + 1];
    assert now == before + [o];
    forall ref | IsPick(before, cutoff, referenced, ref) ensures IsPick(now, cutoff, referenced, ref) {
      var j :| 0 <= j < |before| && before[j].key == ref && before[j].modified <= cutoff;
      assert now[j] == before[j];
    }
    if o.key !in referenced && o.modified <= cutoff {
      assert now[i].key == o.key;
      if Distinct(now) {
        StillDistinct(before, o);
        forall j | 0 <= j < |before| ensures before[j].key != o.key {
          assert now[j].key != now[i].key;
        }
        assert !IsPick(before, cutoff, referenced, o.key);
        NoDupsSnoc(found, o.key);
      }
    } else if Distinct(now) {
      StillDistinct(before, o);
    }
  }

  lemma StillDistinct(before: seq<Object>, o: Object)
    requires Distinct(before + [o])
    ensures Distinct(before)
  {
    forall i, j | 0 <= i < j < |before| ensures before[i].key != before[j].key {
      assert (before + [o])[i] == before[i] && (before + [o])[j] == before[j];
    }
  }

  lemma NoDupsSnoc(s: seq<Ref>, x: Ref)
    requires NoDups(s) && x !in s
    ensures NoDups(s + [x])
  {
  }

  /** What the loop picked from a listing, in terms of the worlds it ran through. */
  lemma PickedOfListing(
    past: seq<World>, from: nat, to: nat, c: Class, cutoff: Time, referenced: set<Ref>, listed: seq<Object>, found: seq<Ref>)
    requires from <= to < |past| && ListsDuring(past, from, to, c, listed) && Picked(listed, cutoff, referenced, found)
    ensures NoDups(found)
    ensures forall ref :: ref in found ==> KeyBelongsToClass(ref, c) && ref !in referenced && OldOnce(past, from, to, ref, cutoff)
    ensures forall ref :: KeyBelongsToClass(ref, c) && ref !in referenced && OldThroughout(past, from, to, ref, cutoff) ==> ref in found
  {
    hide KeyBelongsToClass, NoDups, Distinct;
    forall ref | ref in found
      ensures KeyBelongsToClass(ref, c) && ref !in referenced && OldOnce(past, from, to, ref, cutoff)
    {
      assert IsPick(listed, cutoff, referenced, ref);
      var i :| 0 <= i < |listed| && listed[i].key == ref && listed[i].modified <= cutoff;
      assert Stood(past, from, to, listed[i]);
      var j :| from <= j <= to && ref in past[j].objects && past[j].objects[ref] == listed[i].modified;
      assert IsOld(past[j], ref, cutoff);
    }
    forall ref | KeyBelongsToClass(ref, c) && ref !in referenced && OldThroughout(past, from, to, ref, cutoff)
      ensures ref in found
    {
      assert IsOld(past[from], ref, cutoff);
      var i :| 0 <= i < |listed| && listed[i].key == ref;
      assert Stood(past, from, to, listed[i]);
      var j :| from <= j <= to && ref in past[j].objects && past[j].objects[ref] == listed[i].modified;
      assert IsOld(past[j], ref, cutoff);
    }
  }

  lemma GoneExtends(past: seq<World>, after: seq<World>, from: nat, ref: Ref)
    requires Extends(past, after) && GoneSince(past, from, ref)
    ensures GoneSince(after, from, ref)
  {
    var j :| from <= j < |past| && ref !in past[j].objects;
    SameWorld(past, after, j);
  }

  lemma ActedExtends(past: seq<World>, after: seq<World>, g: Sweep, rechecks: seq<Recheck>)
    requires Extends(past, after) && AllActedOn(past, g, rechecks)
    ensures AllActedOn(after, g, rechecks)
  {
    hide GoneSince, Referenced, Extends;
    forall n | 0 <= n < |rechecks| ensures ActedOn(after, g, rechecks[n]) {
      var r := rechecks[n];
      assert ActedOn(past, g, r);
      SameWorld(past, after, r.to);
      if r.free {
        GoneExtends(past, after, r.to, r.ref);
      }
    }
  }

  lemma PicksExtend(past: seq<World>, after: seq<World>, g: Sweep, lo: nat, l: Listing)
    requires Extends(past, after) && PicksRightly(past, g, lo, l)
    ensures PicksRightly(after, g, lo, l)
  {
    hide Referenced, KeyBelongsToClass, NoDups;
    forall ref | ref in l.picked ensures OldOnce(after, l.from, l.to, ref, g.cutoff) {
      OldExtends(past, after, l.from, l.to, ref, g.cutoff);
    }
    forall ref | KeyBelongsToClass(ref, l.class_) && OldThroughout(after, l.from, l.to, ref, g.cutoff)
                 && NeverReferenced(after, g, lo, ref)
      ensures ref in l.picked
    {
      forall j | 0 <= j < |past| ensures past[j] == after[j] {
        SameWorld(past, after, j);
      }
      assert OldThroughout(past, l.from, l.to, ref, g.cutoff) && NeverReferenced(past, g, lo, ref);
    }
  }

  /** What was in the snapshot was referenced by some source at some moment of the pass. */
  ghost predicate SnapshotSeen(past: seq<World>, g: Sweep, lo: nat, referenced: set<Ref>) {
    forall ref :: ref in referenced ==> !NeverReferenced(past, g, lo, ref)
  }

  lemma SnapshotWasSeen(past: seq<World>, g: Sweep, lo: nat, referenced: set<Ref>)
    requires lo < |past| && Collected(past, lo, g.backend, g.classes, |g.classes|, referenced)
    ensures SnapshotSeen(past, g, lo, referenced)
  {
    hide RefBy, SeenThroughout;
    forall ref | ref in referenced ensures !NeverReferenced(past, g, lo, ref) {
      assert CollectedFrom(past, lo, g.backend, g.classes, |g.classes|, ref);
      var i :| 0 <= i < |g.classes| && SeenOnce(past, lo, |past| - 1, g.backend, g.classes[i], ref);
      var j :| lo <= j <= |past| - 1 && RefBy(past[j], g.backend, g.classes[i], ref);
      assert Referenced(past[j], g.backend, g.classes, ref);
    }
  }

  lemma SnapshotStillSeen(past: seq<World>, after: seq<World>, g: Sweep, lo: nat, referenced: set<Ref>)
    requires Extends(past, after) && SnapshotSeen(past, g, lo, referenced)
    ensures SnapshotSeen(after, g, lo, referenced)
  {
    hide Referenced;
    forall ref | ref in referenced ensures !NeverReferenced(after, g, lo, ref) {
      var j :| lo <= j < |past| && Referenced(past[j], g.backend, g.classes, ref);
      SameWorld(past, after, j);
    }
  }

  /** The candidates of a listing are picked as they should be. */
  lemma PickedRightly(past: seq<World>, g: Sweep, lo: nat, l: Listing, referenced: set<Ref>)
    requires lo <= l.from <= l.to < |past| && NoDups(l.picked) && SnapshotSeen(past, g, lo, referenced)
    requires forall ref :: ref in l.picked ==>
               KeyBelongsToClass(ref, l.class_) && ref !in referenced && OldOnce(past, l.from, l.to, ref, g.cutoff)
    requires forall ref :: KeyBelongsToClass(ref, l.class_) && ref !in referenced ==>
               (OldThroughout(past, l.from, l.to, ref, g.cutoff) ==> ref in l.picked)
    ensures PicksRightly(past, g, lo, l)
  {
    hide KeyBelongsToClass, OldThroughout, OldOnce, NeverReferenced, NoDups;
  }

  /** How far the sweep of one class has come: its rechecks so far, all acted on, and what they found free. */
  ghost predicate Sweeping(past: seq<World>, g: Sweep, rechecks: seq<Recheck>, c: Class, to: nat, done: seq<Ref>, deleted: nat) {
    && AllActedOn(past, g, rechecks) && AfterListing(rechecks, c, to)
    && RefsOf(rechecks, c) == done && FreeOf(rechecks, c) == deleted
  }

  lemma SweepingLater(past: seq<World>, after: seq<World>, g: Sweep, rechecks: seq<Recheck>, c: Class, to: nat, done: seq<Ref>, deleted: nat)
    requires Extends(past, after) && Sweeping(past, g, rechecks, c, to, done, deleted)
    ensures Sweeping(after, g, rechecks, c, to, done, deleted)
  {
    hide ActedOn, RefsOf, FreeOf, AllActedOn;
    ActedExtends(past, after, g, rechecks);
  }

  /** One more candidate rechecked, and deleted if it was free. */
  lemma SweepsOn(past: seq<World>, g: Sweep, rechecks: seq<Recheck>, c: Class, to: nat, done: seq<Ref>, deleted: nat, r: Recheck)
    requires Sweeping(past, g, rechecks, c, to, done, deleted) && ActedOn(past, g, r)
    requires r.class_ == c && to <= r.from <= r.to
    ensures Sweeping(past, g, rechecks + [r], c, to, done + [r.ref], if r.free then deleted + 1 else deleted)
  {
    hide ActedOn;
    assert (rechecks + [r])[..|rechecks|] == rechecks;
  }

  /** The longer list goes on with rechecks of this class alone. */
  predicate AddsOnly(rechecks: seq<Recheck>, more: seq<Recheck>, c: Class) {
    rechecks <= more && forall n :: |rechecks| <= n < |more| ==> more[n].class_ == c
  }

  lemma {:induction false} OthersAsBefore(rechecks: seq<Recheck>, more: seq<Recheck>, c: Class, d: Class)
    requires AddsOnly(rechecks, more, c) && d != c
    ensures RefsOf(more, d) == RefsOf(rechecks, d) && FreeOf(more, d) == FreeOf(rechecks, d)
    decreases |more|
  {
    if |more| == |rechecks| {
      assert more == rechecks;
    } else {
      var n := |more| - 1;
      assert more[..n][..|rechecks|] == rechecks;
      OthersAsBefore(rechecks, more[..n], c, d);
    }
  }

  /** The classes before the n-th were swept well; the others were not begun. */
  ghost predicate SweptSoFar(past: seq<World>, jn: Journal, g: Sweep, lo: nat, result: map<Class, nat>, n: nat) {
    && AllActedOn(past, g, jn.rechecks) && n <= |g.classes| && |jn.listings| == n
    && (forall c :: c in result <==> c in g.classes[..n])
    && (forall m :: 0 <= m < n ==>
          && jn.listings[m].class_ == g.classes[m] && g.classes[m] in result
          && SweptWell(past, jn, g, lo, jn.listings[m], result[g.classes[m]]))
    && (forall m :: n <= m < |g.classes| ==> RefsOf(jn.rechecks, g.classes[m]) == [] && FreeOf(jn.rechecks, g.classes[m]) == 0)
  }

  lemma NothingSwept(past: seq<World>, g: Sweep, lo: nat)
    ensures SweptSoFar(past, Journal([], []), g, lo, map[], 0)
  {
  }

  lemma AllSwept(past: seq<World>, jn: Journal, g: Sweep, lo: nat, result: map<Class, nat>)
    requires SweptSoFar(past, jn, g, lo, result, |g.classes|)
    ensures Thorough(past, jn, g, lo, result)
  {
    hide SweptWell, AllActedOn;
    assert g.classes[..|g.classes|] == g.classes;
  }

  /** An earlier class's sweep stays as it was while another is swept. */
  lemma StaysSwept(
    past: seq<World>, after: seq<World>, jn: Journal, more: Journal, g: Sweep, lo: nat, l: Listing, deleted: nat, c: Class)
    requires SweptWell(past, jn, g, lo, l, deleted) && Extends(past, after)
    requires AddsOnly(jn.rechecks, more.rechecks, c) && l.class_ != c
    ensures SweptWell(after, more, g, lo, l, deleted)
  {
    hide RefsOf, FreeOf, PicksRightly;
    PicksExtend(past, after, g, lo, l);
    OthersAsBefore(jn.rechecks, more.rechecks, c, l.class_);
  }

  /** One more class swept. */
  lemma SweptMore(
    past: seq<World>, after: seq<World>, jn: Journal, more: Journal, g: Sweep, lo: nat, result: map<Class, nat>, n: nat,
    l: Listing, deleted: nat)
    requires SweptSoFar(past, jn, g, lo, result, n) && n < |g.classes| && NoDups(g.classes) && Extends(past, after)
    requires more.listings == jn.listings + [l] && l.class_ == g.classes[n] && AddsOnly(jn.rechecks, more.rechecks, l.class_)
    requires PicksRightly(after, g, lo, l) && Sweeping(after, g, more.rechecks, l.class_, l.to, l.picked, deleted)
    ensures SweptSoFar(after, more, g, lo, result[l.class_ := deleted], n + 1)
  {
    hide RefsOf, FreeOf, PicksRightly, SweptWell, AllActedOn, AfterListing, AddsOnly, Extends;
    var result' := result[l.class_ := deleted];
    assert g.classes[..n + 1] == g.classes[..n] + [l.class_];
    forall m | 0 <= m < n + 1
      ensures more.listings[m].class_ == g.classes[m] && g.classes[m] in result'
      ensures SweptWell(after, more, g, lo, more.listings[m], result'[g.classes[m]])
    {
      if m == n {
        SweepIsDone(after, more, g, lo, l, deleted);
      } else {
        assert more.listings[m] == jn.listings[m] && g.classes[m] != l.class_;
        StaysSwept(past, after, jn, more, g, lo, jn.listings[m], result[g.classes[m]], l.class_);
      }
    }
    forall m | n + 1 <= m < |g.classes|
      ensures RefsOf(more.rechecks, g.classes[m]) == [] && FreeOf(more.rechecks, g.classes[m]) == 0
    {
      OthersAsBefore(jn.rechecks, more.rechecks, l.class_, g.classes[m]);
    }
  }

  /** For each of the first n classes, a preview as its listing during these worlds would give it. */
  ghost predicate Foreseen(past: seq<World>, g: Sweep, lo: nat, result: map<Class, seq<Ref>>, n: nat) {
    && n <= |g.classes| && lo < |past| && (forall c :: c in result <==> c in g.classes[..n])
    && forall m :: 0 <= m < n ==>
         g.classes[m] in result && PicksRightly(past, g, lo, Listing(g.classes[m], lo, |past| - 1, result[g.classes[m]]))
  }

  lemma NothingForeseen(past: seq<World>, g: Sweep, lo: nat)
    requires lo < |past|
    ensures Foreseen(past, g, lo, map[], 0)
  {
  }

  /** What was picked from a listing is what a longer listing around it might have given. */
  lemma PicksWiden(past: seq<World>, g: Sweep, lo: nat, l: Listing, from: nat, to: nat)
    requires PicksRightly(past, g, lo, l) && lo <= from <= l.from && l.to <= to < |past|
    ensures PicksRightly(past, g, lo, l.(from := from, to := to))
  {
    hide KeyBelongsToClass, NeverReferenced, NoDups, IsOld;
  }

  lemma ForeseesMore(
    past: seq<World>, after: seq<World>, g: Sweep, lo: nat, result: map<Class, seq<Ref>>, n: nat, l: Listing)
    requires Foreseen(past, g, lo, result, n) && n < |g.classes| && NoDups(g.classes) && Extends(past, after) && |past| <= |after|
    requires PicksRightly(after, g, lo, l) && l.class_ == g.classes[n]
    ensures Foreseen(after, g, lo, result[l.class_ := l.picked], n + 1)
  {
    hide PicksRightly, Extends;
    assert g.classes[..n + 1] == g.classes[..n] + [l.class_];
    PicksInRange(after, g, lo, l);
    forall m | 0 <= m < n
      ensures PicksRightly(after, g, lo, Listing(g.classes[m], lo, |after| - 1, result[g.classes[m]]))
    {
      var earlier := Listing(g.classes[m], lo, |past| - 1, result[g.classes[m]]);
      PicksExtend(past, after, g, lo, earlier);
      PicksWiden(after, g, lo, earlier, lo, |after| - 1);
    }
    PicksWiden(after, g, lo, l, lo, |after| - 1);
  }

  lemma PicksInRange(past: seq<World>, g: Sweep, lo: nat, l: Listing)
    requires PicksRightly(past, g, lo, l)
    ensures lo <= l.from <= l.to < |past|
  {
  }

  /** Everything rechecked was acted on, and nothing of this class was rechecked. */
  ghost predicate Unswept(past: seq<World>, g: Sweep, rechecks: seq<Recheck>, c: Class) {
    AllActedOn(past, g, rechecks) && RefsOf(rechecks, c) == [] && FreeOf(rechecks, c) == 0
  }

  lemma StillUnswept(past: seq<World>, jn: Journal, g: Sweep, lo: nat, result: map<Class, nat>, n: nat)
    requires SweptSoFar(past, jn, g, lo, result, n) && n < |g.classes|
    ensures Unswept(past, g, jn.rechecks, g.classes[n])
  {
  }

  lemma {:induction false} NoneOf(rechecks: seq<Recheck>, c: Class, to: nat)
    requires RefsOf(rechecks, c) == []
    ensures AfterListing(rechecks, c, to)
  {
    if rechecks != [] {
      NoneOf(rechecks[..|rechecks| - 1], c, to);
    }
  }

  lemma SweepBegins(past: seq<World>, after: seq<World>, g: Sweep, rechecks: seq<Recheck>, c: Class, to: nat)
    requires Unswept(past, g, rechecks, c) && Extends(past, after)
    ensures Sweeping(after, g, rechecks, c, to, [], 0) && AddsOnly(rechecks, rechecks, c)
  {
    hide ActedOn, RefsOf, FreeOf;
    ActedExtends(past, after, g, rechecks);
    NoneOf(rechecks, c, to);
  }

  lemma AddsOneMore(rechecks: seq<Recheck>, c: Class, r: Recheck)
    requires r.class_ == c
    ensures AddsOnly(rechecks, rechecks + [r], c)
  {
  }

  lemma AddsBoth(first: seq<Recheck>, rechecks: seq<Recheck>, more: seq<Recheck>, c: Class)
    requires AddsOnly(first, rechecks, c) && AddsOnly(rechecks, more, c)
    ensures AddsOnly(first, more, c)
  {
  }

  lemma SameListings(jn: Journal, first: Journal, c: Class, l: Listing)
    requires jn.listings == first.listings + [l] && l.class_ == c
    ensures l in jn.listings && ListedClasses(jn) == ListedClasses(first) + [c]
  {
    assert jn.listings[|first.listings|] == l;
  }

  lemma NextFound(found: seq<Ref>, i: nat)
    requires i < |found|
    ensures found[..i + 1] == found[..i] + [found[i]]
  {
  }

  lemma Spared(past: seq<World>, g: Sweep, r: Recheck)
    requires past != [] && r.to == |past| - 1 && !r.free && Referenced(past[r.to], g.backend, g.classes, r.ref)
    ensures ActedOn(past, g, r)
  {
  }

  lemma Gone(before: seq<World>, past: seq<World>, g: Sweep, r: Recheck)
    requires before != [] && Extends(before, past) && r.to == |before| - 1 && r.free
    requires past != [] && r.ref !in past[|past| - 1].objects
    ensures ActedOn(past, g, r)
  {
  }

  /** The sweep of one class, from its listing to its last candidate. */
  ghost predicate SweepEnded(past: seq<World>, g: Sweep, lo: nat, jn: Journal, more: Journal, c: Class, deleted: nat) {
    && |more.listings| == |jn.listings| + 1
    && var l := more.listings[|jn.listings|];
    && l.class_ == c && more.listings == jn.listings + [l] && AddsOnly(jn.rechecks, more.rechecks, c)
    && PicksRightly(past, g, lo, l) && Sweeping(past, g, more.rechecks, c, l.to, l.picked, deleted)
  }

  lemma SweepEnds(past: seq<World>, g: Sweep, lo: nat, jn: Journal, more: Journal, l: Listing, deleted: nat)
    requires more.listings == jn.listings + [l] && AddsOnly(jn.rechecks, more.rechecks, l.class_)
    requires PicksRightly(past, g, lo, l) && Sweeping(past, g, more.rechecks, l.class_, l.to, l.picked, deleted)
    ensures SweepEnded(past, g, lo, jn, more, l.class_, deleted)
  {
    hide PicksRightly, Sweeping, AddsOnly;
  }

  lemma ClassSwept(
    past: seq<World>, after: seq<World>, jn: Journal, more: Journal, g: Sweep, lo: nat, result: map<Class, nat>, n: nat, deleted: nat)
    requires SweptSoFar(past, jn, g, lo, result, n) && n < |g.classes| && NoDups(g.classes) && Extends(past, after)
    requires SweepEnded(after, g, lo, jn, more, g.classes[n], deleted)
    ensures SweptSoFar(after, more, g, lo, result[g.classes[n] := deleted], n + 1)
  {
    hide SweptSoFar, PicksRightly, Sweeping, AddsOnly, NoDups, Extends;
    SweptMore(past, after, jn, more, g, lo, result, n, more.listings[|jn.listings|], deleted);
  }

  lemma SweepIsDone(past: seq<World>, jn: Journal, g: Sweep, lo: nat, l: Listing, deleted: nat)
    requires PicksRightly(past, g, lo, l) && Sweeping(past, g, jn.rechecks, l.class_, l.to, l.picked, deleted)
    ensures SweptWell(past, jn, g, lo, l, deleted) && AllActedOn(past, g, jn.rechecks)
  {
  }

  /** With the world standing still, the candidates are exactly the class's orphans. */
  lemma AloneCandidates(
    past: seq<World>, backend: Backend, classes: seq<Class>, c: Class, cutoff: Time, referenced: set<Ref>, found: seq<Ref>)
    requires past != [] && NoDups(found) && IsSnapshot(past[|past| - 1], backend, classes, referenced)
    requires forall ref :: ref in found ==>
               KeyBelongsToClass(ref, c) && ref !in referenced && OldOnce(past, |past| - 1, |past| - 1, ref, cutoff)
    requires forall ref :: KeyBelongsToClass(ref, c) && ref !in referenced ==>
               (OldThroughout(past, |past| - 1, |past| - 1, ref, cutoff) ==> ref in found)
    ensures Members(found) == Orphans(past[|past| - 1], backend, classes, c, cutoff)
    ensures |found| == |Orphans(past[|past| - 1], backend, classes, c, cutoff)|
  {
    hide KeyBelongsToClass, Referenced;
    DistinctCount(found);
    var w := past[|past| - 1];
    forall ref ensures ref in Members(found) <==> ref in Orphans(w, backend, classes, c, cutoff) {
      if ref in found {
        assert OldOnce(past, |past| - 1, |past| - 1, ref, cutoff);
      }
      if ref in Orphans(w, backend, classes, c, cutoff) {
        assert OldThroughout(past, |past| - 1, |past| - 1, ref, cutoff);
      }
    }
  }

  function Members(s: seq<Ref>): set<Ref> {
    set ref | ref in s
  }

  lemma NoMembers(s: seq<Ref>)
    ensures Members(s[..0]) == {}
  {
  }

  lemma MembersGrow(s: seq<Ref>, i: nat)
    requires i < |s|
    ensures Members(s[..i + 1]) == Members(s[..i]) + {s[i]}
  {
    assert s[..i + 1] == s[..i] + [s[i]];
    forall ref ensures ref in s[..i] + [s[i]] <==> ref in s[..i] || ref == s[i] {
    }
  }

  lemma {:induction false} DistinctCount(s: seq<Ref>)
    requires NoDups(s)
    ensures |Members(s)| == |s|
  {
    if s != [] {
      var n := |s| - 1;
      DistinctCount(s[..n]);
      MembersGrow(s, n);
      assert s[..n + 1] == s;
      LastIsNew(s, n);
    }
  }

  lemma LastIsNew(s: seq<Ref>, n: nat)
    requires NoDups(s) && n == |s| - 1
    ensures s[n] !in Members(s[..n])
  {
    assert forall i :: 0 <= i < n ==> s[..n][i] == s[i] && s[i] != s[n];
  }

  /** With the rows as they were, an orphan is still unreferenced when it is rechecked. */
  lemma StillOrphan(w: World, now: World, backend: Backend, classes: seq<Class>, c: Class, cutoff: Time, found: seq<Ref>, i: nat)
    requires now.sources == w.sources && i < |found| && Members(found) == Orphans(w, backend, classes, c, cutoff)
    ensures !Referenced(now, backend, classes, found[i])
  {
    hide Referenced;
    assert found[i] in Members(found);
    SameReferences(w, now, backend, classes, found[i]);
  }

  lemma ExtendsBoth(a: seq<World>, b: seq<World>, c: seq<World>)
    requires Extends(a, b) && Extends(b, c)
    ensures Extends(a, c) && |a| <= |b| <= |c|
  {
  }

  lemma OneMore(a: seq<World>, b: seq<World>, w: World)
    requires Extends(a, b)
    ensures Extends(a, b + [w])
  {
  }

  /** Time passes. */
  lemma PassPauses(past: seq<World>, after: seq<World>, jn: Journal, g: Sweep, lo: nat)
    requires Pass(past, jn, g, lo) && Extends(past, after) && NoLoss(after, |past| - 1)
    ensures Pass(after, jn, g, lo) && lo < |past| <= |after|
  {
    hide Justified, InRange, NoLoss;
    InRangeLater(past, after, jn, lo);
    PassWaits(past, after, jn, jn, g, lo);
  }

  lemma JournalLists(before: seq<World>, past: seq<World>, jn: Journal, g: Sweep, lo: nat, l: Listing)
    requires Pass(past, jn, g, lo) && lo < |before| <= |past| && l.from == |before| - 1 && l.to == |past| - 1
    ensures var more := jn.(listings := jn.listings + [l]);
            Pass(past, more, g, lo) && l in more.listings && ListedClasses(more) == ListedClasses(jn) + [l.class_]
  {
    hide Justified;
    NothingNew(past);
    var more := jn.(listings := jn.listings + [l]);
    assert more.listings[|jn.listings|] == l;
    PassWaits(past, past, jn, more, g, lo);
  }

  lemma JournalRechecks(before: seq<World>, past: seq<World>, jn: Journal, g: Sweep, lo: nat, r: Recheck)
    requires Pass(past, jn, g, lo) && lo < |before| <= |past| && r.from == |before| - 1 && r.to == |past| - 1
    ensures var more := jn.(rechecks := jn.rechecks + [r]);
            Pass(past, more, g, lo) && r in more.rechecks && ListedClasses(more) == ListedClasses(jn)
  {
    hide Justified;
    NothingNew(past);
    var more := jn.(rechecks := jn.rechecks + [r]);
    assert more.rechecks[|jn.rechecks|] == r;
    PassWaits(past, past, jn, more, g, lo);
  }

  /** A listed candidate rechecked in vain since the end of `before`. */
  lemma RecheckedInVain(before: seq<World>, past: seq<World>, g: Sweep, lo: nat, l: Listing, r: Recheck)
    requires before != [] && Extends(before, past) && |before| <= |past|
    requires lo <= l.from <= l.to < |before| && r.from == |before| - 1 && r.to == |past| - 1
    requires KeyBelongsToClass(r.ref, l.class_) && OldOnce(before, l.from, l.to, r.ref, g.cutoff)
    requires FirstUnseen(past, r.from, g.backend, g.classes, |g.classes|, r.ref)
    ensures DeletedAfter(past, g, lo, l, r, r.ref, |past| - 1)
  {
    hide SeenThroughout, KeyBelongsToClass, OldOnce, Extends;
    OldExtends(before, past, l.from, l.to, r.ref, g.cutoff);
  }

  /** The deletion may take effect any time later. */
  lemma DeletionLater(past: seq<World>, after: seq<World>, jn: Journal, g: Sweep, lo: nat, l: Listing, r: Recheck, ref: Ref)
    requires Extends(past, after) && past != [] && l in jn.listings && r in jn.rechecks
    requires DeletedAfter(past, g, lo, l, r, ref, |past| - 1)
    ensures |past| <= |after| && Justified(after, jn, g, lo, ref, |after| - 1)
  {
    hide DeletedAfter;
    DeletedExtends(past, after, g, lo, l, r, ref, |past| - 1, |after| - 1);
    var m :| 0 <= m < |jn.listings| && jn.listings[m] == l;
    var n :| 0 <= n < |jn.rechecks| && jn.rechecks[n] == r;
  }

  lemma ReferencedGrows(w: World, backend: Backend, classes: seq<Class>, n: nat, ref: Ref)
    requires n < |classes|
    ensures Referenced(w, backend, classes[..n + 1], ref) <==>
            Referenced(w, backend, classes[..n], ref) || RefBy(w, backend, classes[n], ref)
    ensures RefBy(w, backend, classes[n], ref) ==> Referenced(w, backend, classes, ref)
  {
    hide RefBy;
    var longer, shorter := classes[..n + 1], classes[..n];
    assert forall i :: 0 <= i < n ==> longer[i] == shorter[i];
    assert longer[n] == classes[n];
  }
}
