// What is left of the saved projects and what is written of them
// (site/src/utils/playground-store.ts).
module Saving {
  import opened Wrappers
  import opened PlaygroundStore

  // ---- what is left --------------------------------------------------------------------------

  // Places going up.
  predicate Rising(places: seq<nat>, n: nat) {
    (forall i :: 0 <= i < |places| ==> places[i] < n) && forall i, j :: 0 <= i < j < |places| ==> places[i] < places[j]
  }

  // What is left stands at these places of what there was, in the same order.
  predicate At(before: seq<Project>, now: seq<Project>, places: seq<nat>) {
    Rising(places, |before|) && |now| == |places| && forall i :: 0 <= i < |now| ==> now[i] == before[places[i]]
  }

  lemma AllAt(scratch: seq<Project>) returns (places: seq<nat>)
    ensures At(scratch, scratch, places)
  {
    places := seq(|scratch|, i => i);
  }

  lemma WithoutAt(before: seq<Project>, now: seq<Project>, places: seq<nat>, i: nat) returns (rest: seq<nat>)
    requires At(before, now, places) && i < |now|
    ensures At(before, Without(now, i), rest)
  {
    rest := places[..i] + places[i + 1..];
    forall k | 0 <= k < |rest|
      ensures rest[k] == if k < i then places[k] else places[k + 1]
    {
    }
    var left := Without(now, i);
    forall k | 0 <= k < |left|
      ensures left[k] == before[rest[k]]
    {
      assert left[k] == if k < i then now[k] else now[k + 1];
    }
  }

  // However many have gone, the rest keep their order.
  lemma {:induction false} LeftAt(scratch: seq<Project>, keep: string, n: nat) returns (places: seq<nat>)
    requires n <= |Order(scratch, keep)|
    ensures At(scratch, Left(scratch, keep, n), places)
  {
    if n == 0 {
      places := AllAt(scratch);
    } else {
      var before := LeftAt(scratch, keep, n - 1);
      LeftMore(scratch, keep, n - 1);
      places := WithoutAt(scratch, Left(scratch, keep, n - 1), before, Oldest(Left(scratch, keep, n - 1), keep).value);
    }
  }

  // Earlier in the order of eviction: before in time, and of one time before in the list.
  predicate GoesFirst(scratch: seq<Project>, a: nat, b: nat)
    requires a < |scratch| && b < |scratch|
  {
    scratch[a].updatedAt < scratch[b].updatedAt || (scratch[a].updatedAt == scratch[b].updatedAt && a <= b)
  }

  // The next to go is, of all that are left and may go, the one of the list that goes
  // first.
  lemma NextGoesFirst(scratch: seq<Project>, keep: string, n: nat) returns (places: seq<nat>, i: nat)
    requires n < |Order(scratch, keep)|
    ensures At(scratch, Left(scratch, keep, n), places) && i < |places| && Order(scratch, keep)[n] == scratch[places[i]]
    ensures !Kept(scratch[places[i]], keep)
    ensures forall j :: 0 <= j < |places| ==> Kept(scratch[places[j]], keep) || GoesFirst(scratch, places[i], places[j])
    ensures Left(scratch, keep, n + 1) == Left(scratch, keep, n)[..i] + Left(scratch, keep, n)[i + 1..]
  {
    places := LeftAt(scratch, keep, n);
    LeftMore(scratch, keep, n);
    var left := Left(scratch, keep, n);
    i := Oldest(left, keep).value;
    OldestIs(left, keep);
    forall j | 0 <= j < |places|
      ensures Kept(scratch[places[j]], keep) || GoesFirst(scratch, places[i], places[j])
    {
      assert left[j] == scratch[places[j]];
      assert i < j ==> places[i] < places[j];
    }
  }

  // ---- what is written -------------------------------------------------------------------------

  // Left out of what is written: a source over 32 KiB, in the order of the list.
  lemma {:induction false} SkippedAre(a: seq<Project>, b: seq<Project>)
    ensures SkippedOf(a + b) == SkippedOf(a) + SkippedOf(b)
    ensures forall p: Project :: SkippedOf([p]) == if p.sourceBytes > 32768 then [p] else []
  {
    forall p: Project
      ensures SkippedOf([p]) == if p.sourceBytes > 32768 then [p] else []
    {
      assert [p][1..] == [];
    }
    if a == [] {
      assert a + b == b;
    } else {
      assert (a + b)[1..] == a[1..] + b;
      SkippedAre(a[1..], b);
      var head := if Oversized(a[0]) then [a[0]] else [];
      assert head + (SkippedOf(a[1..]) + SkippedOf(b)) == head + SkippedOf(a[1..]) + SkippedOf(b);
    }
  }

  // The size of the text: the frame's, and that of each project not left out.
  lemma BareIs(frame: Frame, scratch: seq<Project>, p: Project, skipped: set<string>)
    ensures Bare(frame, [], skipped) == frame.base
    ensures Bare(frame, scratch + [p], skipped) == Bare(frame, scratch, skipped) + if p.id in skipped then 0 else p.size
  {
    assert (scratch + [p])[..|scratch|] == scratch;
  }

  // The images are in it exactly when there are none or the whole is at most 256 KiB.
  lemma TextIs(frame: Frame, scratch: seq<Project>, skipped: set<string>)
    ensures var text, bare := Serialized(frame, scratch, skipped), Bare(frame, scratch, skipped);
            && (text.images <==> frame.images.None? || bare + frame.images.value <= 262144)
            && text.size == bare + if text.images && frame.images.Some? then frame.images.value else 0
  {
  }

  // Eviction goes on exactly while what is written without images is over 256 KiB.
  lemma StopsIs(frame: Frame, scratch: seq<Project>, keep: string, skipped: set<string>, n: nat)
    requires n <= |Order(scratch, keep)|
    ensures Stops(frame, scratch, keep, skipped, n) <==>
            && (n > 0 ==> Bare(frame, Left(scratch, keep, n - 1), skipped) > 262144)
            && (n < |Order(scratch, keep)| ==> Bare(frame, Left(scratch, keep, n), skipped) <= 262144)
  {
    if n > 0 && BareLeft(frame, scratch, keep, skipped, n - 1) > MAX_ENVELOPE_BYTES {
      forall k | 0 <= k < n
        ensures BareLeft(frame, scratch, keep, skipped, k) > MAX_ENVELOPE_BYTES
      {
        BareShrinks(frame, scratch, keep, skipped, k, n - 1);
      }
    }
  }
}
