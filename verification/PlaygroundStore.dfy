// Making saved projects fit (site/src/utils/playground-store.ts).
module PlaygroundStore {
  // Eviction and the write that needs it. The serialised text is modelled by its
  // size, a sum of what each part takes.

  import opened Wrappers

  const MAX_SCRATCH := 16
  const MAX_SOURCE_BYTES := 32 * 1024
  const MAX_ENVELOPE_BYTES := 256 * 1024

  // `sourceBytes` of source; `size` in the serialised envelope.
  datatype Project = Project(id: string, name: string, updatedAt: int, sourceBytes: nat, size: nat)

  // The project being edited; an empty identifier keeps nothing.
  predicate Kept(p: Project, keep: string) {
    keep != "" && p.id == keep
  }

  predicate OnlyKept(scratch: seq<Project>, keep: string) {
    forall i :: 0 <= i < |scratch| ==> Kept(scratch[i], keep)
  }

  // The first of the least recently updated, of those that may go.
  predicate IsOldest(scratch: seq<Project>, keep: string, i: nat) {
    && i < |scratch| && !Kept(scratch[i], keep)
    && (forall j :: 0 <= j < |scratch| ==> Kept(scratch[j], keep) || scratch[i].updatedAt <= scratch[j].updatedAt)
    && (forall j :: 0 <= j < i ==> Kept(scratch[j], keep) || scratch[i].updatedAt < scratch[j].updatedAt)
  }

  function Without(scratch: seq<Project>, i: nat): seq<Project>
    requires i < |scratch|
  {
    scratch[..i] + scratch[i + 1..]
  }

  // The oldest of the first `n`; None when nothing of them may go.
  function OldestOf(scratch: seq<Project>, keep: string, n: nat): (oldest: Option<nat>)
    requires n <= |scratch|
    ensures oldest.Some? ==> oldest.value < n
  {
    if n == 0 then None
    else
      var before := OldestOf(scratch, keep, n - 1);
      if Kept(scratch[n - 1], keep) then before
      else if before.None? || scratch[n - 1].updatedAt < scratch[before.value].updatedAt then Some(n - 1)
      else before
  }

  lemma {:induction false} OldestOfIs(scratch: seq<Project>, keep: string, n: nat)
    requires n <= |scratch|
    ensures var oldest := OldestOf(scratch, keep, n);
            && (oldest.None? <==> OnlyKept(scratch[..n], keep))
            && (oldest.Some? ==> IsOldest(scratch[..n], keep, oldest.value))
  {
    if n > 0 {
      OldestOfIs(scratch, keep, n - 1);
      assert scratch[..n][..n - 1] == scratch[..n - 1] && scratch[..n][n - 1] == scratch[n - 1];
      assert forall j :: 0 <= j < n - 1 ==> scratch[..n][j] == scratch[..n - 1][j];
    }
  }

  function Oldest(scratch: seq<Project>, keep: string): (oldest: Option<nat>)
    ensures oldest.Some? ==> oldest.value < |scratch|
  {
    OldestOf(scratch, keep, |scratch|)
  }

  lemma OldestIs(scratch: seq<Project>, keep: string)
    ensures Oldest(scratch, keep).None? <==> OnlyKept(scratch, keep)
    ensures Oldest(scratch, keep).Some? ==> IsOldest(scratch, keep, Oldest(scratch, keep).value)
  {
    OldestOfIs(scratch, keep, |scratch|);
    assert scratch[..|scratch|] == scratch;
  }

  // None when nothing may go.
  method OldestIndex(scratch: seq<Project>, keep: string) returns (oldest: Option<nat>)
    ensures oldest == Oldest(scratch, keep)
    ensures oldest.None? <==> OnlyKept(scratch, keep)
    ensures oldest.Some? ==> IsOldest(scratch, keep, oldest.value)
  {
    oldest := None;
    for i := 0 to |scratch|
      invariant oldest == OldestOf(scratch, keep, i)
      invariant oldest.Some? ==> oldest.value < i
    {
      if Kept(scratch[i], keep) {
        continue;
      }
      if oldest.None? || scratch[i].updatedAt < scratch[oldest.value].updatedAt {
        oldest := Some(i);
      }
    }
    OldestIs(scratch, keep);
  }

  // ---- the order of eviction ---------------------------------------------------------------

  // What may go, in the order in which it goes.
  function Order(scratch: seq<Project>, keep: string): seq<Project>
    decreases |scratch|
  {
    var oldest := Oldest(scratch, keep);
    if oldest.None? then [] else [scratch[oldest.value]] + Order(Without(scratch, oldest.value), keep)
  }

  // What is left when the first `n` have gone.
  function Left(scratch: seq<Project>, keep: string, n: nat): seq<Project>
    requires n <= |Order(scratch, keep)|
    decreases |scratch|
  {
    if n == 0 then scratch else Left(Without(scratch, Oldest(scratch, keep).value), keep, n - 1)
  }

  // The next to go is the oldest of what is left.
  lemma {:induction false} LeftMore(scratch: seq<Project>, keep: string, n: nat)
    requires n < |Order(scratch, keep)|
    ensures var left := Left(scratch, keep, n);
            var oldest := Oldest(left, keep);
            && oldest.Some? && Order(scratch, keep)[n] == left[oldest.value]
            && Left(scratch, keep, n + 1) == Without(left, oldest.value)
    decreases |scratch|
  {
    if n > 0 {
      LeftMore(Without(scratch, Oldest(scratch, keep).value), keep, n - 1);
    }
  }

  // Once all of them have gone only the kept one is left.
  lemma {:induction false} LeftLast(scratch: seq<Project>, keep: string, n: nat)
    requires n <= |Order(scratch, keep)|
    ensures OnlyKept(Left(scratch, keep, n), keep) <==> n == |Order(scratch, keep)|
    decreases |scratch|
  {
    OldestIs(scratch, keep);
    if n > 0 {
      LeftLast(Without(scratch, Oldest(scratch, keep).value), keep, n - 1);
    }
  }

  // The order is by time, and of equals the earlier in the list goes first: what
  // has gone is no newer than what is left.
  lemma {:induction false} OrderEvicts(scratch: seq<Project>, keep: string, n: nat)
    requires n <= |Order(scratch, keep)|
    ensures Evicted(scratch, Left(scratch, keep, n), Order(scratch, keep)[..n], keep)
  {
    if n == 0 {
      EvictedNone(scratch, keep);
    } else {
      var order := Order(scratch, keep);
      OrderEvicts(scratch, keep, n - 1);
      LeftMore(scratch, keep, n - 1);
      EvictsNext(scratch, keep, Left(scratch, keep, n - 1), Left(scratch, keep, n), order, n - 1);
    }
  }

  lemma EvictsNext(before: seq<Project>, keep: string, left: seq<Project>, next: seq<Project>, order: seq<Project>, n: nat)
    requires n < |order| && Evicted(before, left, order[..n], keep)
    requires var oldest := Oldest(left, keep); oldest.Some? && order[n] == left[oldest.value] && next == Without(left, oldest.value)
    ensures Evicted(before, next, order[..n + 1], keep)
  {
    OldestIs(left, keep);
    EvictedMore(before, left, order[..n], keep, Oldest(left, keep).value);
    assert order[..n + 1] == order[..n] + [order[n]];
  }

  // ---- what eviction keeps -----------------------------------------------------------------

  // Split without loss: what went may go, and is no newer than anything left but
  // the kept one.
  ghost predicate Evicted(before: seq<Project>, scratch: seq<Project>, evicted: seq<Project>, keep: string) {
    && multiset(scratch) + multiset(evicted) == multiset(before)
    && (forall e <- evicted :: !Kept(e, keep))
    && (forall e <- evicted, p <- scratch :: Kept(p, keep) || e.updatedAt <= p.updatedAt)
  }

  lemma EvictedNone(before: seq<Project>, keep: string)
    ensures Evicted(before, before, [], keep)
  {
  }

  lemma WithoutMultiset(scratch: seq<Project>, i: nat)
    requires i < |scratch|
    ensures multiset(Without(scratch, i)) + multiset{scratch[i]} == multiset(scratch)
    ensures forall p <- Without(scratch, i) :: p in scratch
  {
    assert scratch == scratch[..i] + [scratch[i]] + scratch[i + 1..];
  }

  // Evicting the oldest keeps all of it.
  lemma EvictedMore(before: seq<Project>, scratch: seq<Project>, evicted: seq<Project>, keep: string, i: nat)
    requires Evicted(before, scratch, evicted, keep) && IsOldest(scratch, keep, i)
    ensures Evicted(before, Without(scratch, i), evicted + [scratch[i]], keep)
  {
    var rest := Without(scratch, i);
    WithoutMultiset(scratch, i);
    assert multiset(evicted + [scratch[i]]) == multiset(evicted) + multiset{scratch[i]};
    forall e, p | e in evicted + [scratch[i]] && p in rest
      ensures Kept(p, keep) || e.updatedAt <= p.updatedAt
    {
      assert p in scratch;
      if e !in evicted {
        var j :| 0 <= j < |scratch| && scratch[j] == p;
        assert Kept(scratch[j], keep) || scratch[i].updatedAt <= scratch[j].updatedAt;
      }
    }
  }

  // `trimToMax`
  method TrimToMax(list: seq<Project>, keep: string) returns (out: seq<Project>, evicted: seq<Project>)
    ensures Evicted(list, out, evicted, keep) && Gone(list, keep, out, evicted)
    ensures |out| <= MAX_SCRATCH || OnlyKept(out, keep)
    ensures |list| <= MAX_SCRATCH ==> evicted == []
    ensures evicted != [] ==> |out| >= MAX_SCRATCH
  {
    out, evicted := list, [];
    EvictedNone(list, keep);
    while |out| > MAX_SCRATCH
      invariant Evicted(list, out, evicted, keep) && Gone(list, keep, out, evicted)
      invariant evicted != [] ==> MAX_SCRATCH <= |out| < |list|
      invariant evicted == [] ==> out == list
    {
      var oldest := OldestIndex(out, keep);
      if oldest.None? {
        break;
      }
      EvictedMore(list, out, evicted, keep, oldest.value);
      GoneNext(list, keep, out, evicted);
      evicted := evicted + [out[oldest.value]];
      out := Without(out, oldest.value);
    }
  }

  // ---- writing -----------------------------------------------------------------------------

  // What storage makes of a write.
  datatype Stored = Took | Quota | Refused

  // A text handed to storage.
  datatype Text = Text(size: nat, images: bool)

  datatype Note = NoNote | EvictedNote(names: seq<string>) | ImagesSkipped | DisabledQuota | DisabledUnavailable

  // What a write comes to; `handed` is every text storage was given.
  datatype Written = Written(ok: bool, note: Note, skipped: seq<Project>, evicted: seq<Project>, handed: seq<Text>)

  // The rest of an envelope: what it takes besides projects and images, and what
  // the images take if there are any.
  datatype Frame = Frame(base: nat, images: Option<nat>)

  predicate Oversized(p: Project) {
    p.sourceBytes > MAX_SOURCE_BYTES
  }

  function SkippedOf(scratch: seq<Project>): seq<Project> {
    if scratch == [] then [] else (if Oversized(scratch[0]) then [scratch[0]] else []) + SkippedOf(scratch[1..])
  }

  function IdsOf(projects: seq<Project>): set<string> {
    set i | 0 <= i < |projects| :: projects[i].id
  }

  function Weight(p: Project, skipped: set<string>): nat {
    if p.id in skipped then 0 else p.size
  }

  function Sum(scratch: seq<Project>, skipped: set<string>): nat {
    if scratch == [] then 0 else Sum(scratch[..|scratch| - 1], skipped) + Weight(scratch[|scratch| - 1], skipped)
  }

  function Bare(frame: Frame, scratch: seq<Project>, skipped: set<string>): nat {
    frame.base + Sum(scratch, skipped)
  }

  // With its images if they fit, and else without.
  function Serialized(frame: Frame, scratch: seq<Project>, skipped: set<string>): Text {
    var bare := Bare(frame, scratch, skipped);
    var whole := if frame.images.Some? then bare + frame.images.value else bare;
    if whole > MAX_ENVELOPE_BYTES && frame.images.Some? then Text(bare, false) else Text(whole, true)
  }

  lemma {:induction false} SumConcat(a: seq<Project>, b: seq<Project>, skipped: set<string>)
    ensures Sum(a + b, skipped) == Sum(a, skipped) + Sum(b, skipped)
  {
    if b == [] {
      assert a + b == a;
    } else {
      SumConcat(a, b[..|b| - 1], skipped);
      assert (a + b)[..|a + b| - 1] == a + b[..|b| - 1];
    }
  }

  lemma SumWithout(scratch: seq<Project>, i: nat, skipped: set<string>)
    requires i < |scratch|
    ensures Sum(scratch, skipped) == Sum(Without(scratch, i), skipped) + Weight(scratch[i], skipped)
  {
    var front := scratch[..i + 1];
    SumConcat(scratch[..i], scratch[i + 1..], skipped);
    SumConcat(front, scratch[i + 1..], skipped);
    assert front + scratch[i + 1..] == scratch && front[..i] == scratch[..i];
  }

  // ---- what evictions free -----------------------------------------------------------------

  // The size of the text that is written when the first `n` have gone.
  function BareLeft(frame: Frame, scratch: seq<Project>, keep: string, skipped: set<string>, n: nat): nat
    requires n <= |Order(scratch, keep)|
  {
    Bare(frame, Left(scratch, keep, n), skipped)
  }

  // Evicting the oldest frees room exactly when it was to be written.
  lemma EvictionFrees(frame: Frame, scratch: seq<Project>, keep: string, skipped: set<string>, n: nat)
    requires n < |Order(scratch, keep)|
    ensures BareLeft(frame, scratch, keep, skipped, n) ==
            BareLeft(frame, scratch, keep, skipped, n + 1) + Weight(Order(scratch, keep)[n], skipped)
    ensures BareLeft(frame, scratch, keep, skipped, n + 1) < BareLeft(frame, scratch, keep, skipped, n) <==>
            Order(scratch, keep)[n].id !in skipped && Order(scratch, keep)[n].size > 0
  {
    var left := Left(scratch, keep, n);
    LeftMore(scratch, keep, n);
    SumWithout(left, Oldest(left, keep).value, skipped);
  }

  lemma {:induction false} LeftFrees(frame: Frame, scratch: seq<Project>, keep: string, skipped: set<string>, n: nat)
    requires n <= |Order(scratch, keep)|
    ensures Bare(frame, scratch, skipped) ==
            BareLeft(frame, scratch, keep, skipped, n) + Sum(Order(scratch, keep)[..n], skipped)
  {
    if n > 0 {
      var order := Order(scratch, keep);
      LeftFrees(frame, scratch, keep, skipped, n - 1);
      EvictionFrees(frame, scratch, keep, skipped, n - 1);
      assert order[..n][..n - 1] == order[..n - 1];
    }
  }

  function TextLeft(frame: Frame, scratch: seq<Project>, keep: string, skipped: set<string>, n: nat): Text
    requires n <= |Order(scratch, keep)|
  {
    Serialized(frame, Left(scratch, keep, n), skipped)
  }

  // Eviction stops after `n`: at the first text within the cap, or at the end.
  predicate Stops(frame: Frame, scratch: seq<Project>, keep: string, skipped: set<string>, n: nat) {
    && n <= |Order(scratch, keep)|
    && (forall k :: 0 <= k < n ==> BareLeft(frame, scratch, keep, skipped, k) > MAX_ENVELOPE_BYTES)
    && (n < |Order(scratch, keep)| ==> BareLeft(frame, scratch, keep, skipped, n) <= MAX_ENVELOPE_BYTES)
  }

  lemma {:induction false} BareShrinks(frame: Frame, scratch: seq<Project>, keep: string, skipped: set<string>, k: nat, n: nat)
    requires k <= n <= |Order(scratch, keep)|
    ensures BareLeft(frame, scratch, keep, skipped, n) <= BareLeft(frame, scratch, keep, skipped, k)
    decreases n - k
  {
    if k < n {
      BareShrinks(frame, scratch, keep, skipped, k, n - 1);
      EvictionFrees(frame, scratch, keep, skipped, n - 1);
    }
  }

  // These have gone, in their order, and nothing else.
  predicate Gone(before: seq<Project>, keep: string, now: seq<Project>, evicted: seq<Project>) {
    && |evicted| <= |Order(before, keep)| && evicted == Order(before, keep)[..|evicted|]
    && now == Left(before, keep, |evicted|)
  }

  predicate Over(frame: Frame, before: seq<Project>, keep: string, skipped: set<string>, n: nat) {
    && n <= |Order(before, keep)|
    && forall k :: 0 <= k < n ==> BareLeft(frame, before, keep, skipped, k) > MAX_ENVELOPE_BYTES
  }

  lemma GoneNext(before: seq<Project>, keep: string, now: seq<Project>, evicted: seq<Project>)
    requires Gone(before, keep, now, evicted) && Oldest(now, keep).Some?
    ensures var oldest := Oldest(now, keep).value; Gone(before, keep, Without(now, oldest), evicted + [now[oldest]])
  {
    LeftLast(before, keep, |evicted|);
    OldestIs(now, keep);
    LeftMore(before, keep, |evicted|);
    assert Order(before, keep)[..|evicted| + 1] == evicted + [Order(before, keep)[|evicted|]];
  }

  lemma GoneMore(frame: Frame, before: seq<Project>, keep: string, skipped: set<string>, now: seq<Project>, evicted: seq<Project>)
    requires Gone(before, keep, now, evicted) && Oldest(now, keep).Some?
    requires Over(frame, before, keep, skipped, |evicted|)
    ensures var oldest := Oldest(now, keep).value;
            && Gone(before, keep, Without(now, oldest), evicted + [now[oldest]])
            && (Bare(frame, now, skipped) > MAX_ENVELOPE_BYTES ==> Over(frame, before, keep, skipped, |evicted| + 1))
  {
    GoneNext(before, keep, now, evicted);
  }

  lemma GoneEvicts(before: seq<Project>, keep: string, now: seq<Project>, evicted: seq<Project>)
    requires Gone(before, keep, now, evicted)
    ensures Evicted(before, now, evicted, keep)
  {
    OrderEvicts(before, keep, |evicted|);
  }

  lemma GoneStops(frame: Frame, before: seq<Project>, keep: string, skipped: set<string>, now: seq<Project>, evicted: seq<Project>)
    requires Gone(before, keep, now, evicted) && Over(frame, before, keep, skipped, |evicted|)
    requires Bare(frame, now, skipped) <= MAX_ENVELOPE_BYTES || OnlyKept(now, keep)
    ensures Stops(frame, before, keep, skipped, |evicted|)
  {
    LeftLast(before, keep, |evicted|);
  }

  // Of a whole run the wasted evictions are exactly those of projects that are
  // left out, or take no room, and whose turn comes while the rest is over the
  // cap: known before the run from the order, the sizes and what is left out.
  lemma WastedExactly(frame: Frame, scratch: seq<Project>, keep: string, skipped: set<string>, n: nat, k: nat)
    requires Stops(frame, scratch, keep, skipped, n) && k < |Order(scratch, keep)|
    ensures k < n && BareLeft(frame, scratch, keep, skipped, k + 1) == BareLeft(frame, scratch, keep, skipped, k) <==>
            var order := Order(scratch, keep);
            && (order[k].id in skipped || order[k].size == 0)
            && Bare(frame, scratch, skipped) > MAX_ENVELOPE_BYTES + Sum(order[..k], skipped)
  {
    LeftFrees(frame, scratch, keep, skipped, k);
    EvictionFrees(frame, scratch, keep, skipped, k);
    if n <= k {
      BareShrinks(frame, scratch, keep, skipped, n, k);
    }
  }

  // When the oldest is too large to be written and the rest is over the cap, it goes
  // first and frees nothing.
  lemma OversizedFirst(frame: Frame, scratch: seq<Project>, keep: string, n: nat)
    requires Oldest(scratch, keep).Some? && Oversized(scratch[Oldest(scratch, keep).value])
    requires var skipped := IdsOf(SkippedOf(scratch));
             Bare(frame, scratch, skipped) > MAX_ENVELOPE_BYTES && Stops(frame, scratch, keep, skipped, n)
    ensures var skipped := IdsOf(SkippedOf(scratch));
            && n > 0 && Order(scratch, keep)[0] == scratch[Oldest(scratch, keep).value]
            && BareLeft(frame, scratch, keep, skipped, 1) == BareLeft(frame, scratch, keep, skipped, 0)
  {
    var skipped, i := IdsOf(SkippedOf(scratch)), Oldest(scratch, keep).value;
    OversizedSkipped(scratch, i);
    WastedExactly(frame, scratch, keep, skipped, n, 0);
  }

  lemma {:induction false} OversizedSkipped(scratch: seq<Project>, i: nat)
    requires i < |scratch|
    ensures Oversized(scratch[i]) ==> scratch[i].id in IdsOf(SkippedOf(scratch))
  {
    var skipped := SkippedOf(scratch);
    if Oversized(scratch[i]) {
      SkippedHolds(scratch, i);
      var k :| 0 <= k < |skipped| && skipped[k] == scratch[i];
      assert skipped[k].id in IdsOf(skipped);
    }
  }

  lemma {:induction false} SkippedHolds(scratch: seq<Project>, i: nat)
    requires i < |scratch| && Oversized(scratch[i])
    ensures scratch[i] in SkippedOf(scratch)
  {
    if i > 0 {
      SkippedHolds(scratch[1..], i - 1);
    }
  }

  // Ten projects of which the oldest is too large: two go, where one would do.
  function Ordinary(i: nat): Project
    requires i < 9
  {
    Project(['b' + i as char], "project", 1 + i, 30000, 30100)
  }

  function Crowded(): seq<Project> {
    [Project("a", "large", 0, MAX_SOURCE_BYTES + 1, MAX_SOURCE_BYTES + 101)]
    + seq(9, i requires 0 <= i < 9 => Ordinary(i))
  }

  lemma CrowdedWastes()
    ensures var frame, scratch, skipped := Frame(500, None), Crowded(), IdsOf(SkippedOf(Crowded()));
            && Stops(frame, scratch, "", skipped, 2) && Order(scratch, "")[0].id == "a"
            && BareLeft(frame, scratch, "", skipped, 1) == BareLeft(frame, scratch, "", skipped, 0)
  {
    var frame, scratch := Frame(500, None), Crowded();
    CrowdedIs(scratch);
    FirstSkipped(scratch);
    CrowdedSums(scratch);
    TwoGo(frame, scratch, {"a"});
    InTurn(scratch);
    OversizedFirst(frame, scratch, "", 2);
  }

  lemma CrowdedIs(scratch: seq<Project>)
    requires scratch == Crowded()
    ensures |scratch| == 10 && scratch[0].id == "a" && Oversized(scratch[0])
    ensures forall p <- scratch[1..] :: p.id != "a" && p.size == 30100 && !Oversized(p)
    ensures ByTime(scratch)
  {
    assert forall i :: 1 <= i < 10 ==> scratch[i] == Ordinary(i - 1);
    assert forall i :: 0 <= i < 9 ==> scratch[1..][i] == Ordinary(i);
  }

  lemma CrowdedSums(scratch: seq<Project>)
    requires |scratch| == 10 && forall p <- scratch[1..] :: p.id != "a" && p.size == 30100
    ensures Sum(scratch[1..], {"a"}) == 270900 && Sum(scratch[2..], {"a"}) == 240800
  {
    SumEven(scratch[1..], {"a"}, 30100);
    assert scratch[2..] == scratch[1..][1..];
    SumEven(scratch[2..], {"a"}, 30100);
  }

  lemma FirstSkipped(scratch: seq<Project>)
    requires scratch != [] && Oversized(scratch[0]) && forall p <- scratch[1..] :: !Oversized(p)
    ensures IdsOf(SkippedOf(scratch)) == {scratch[0].id}
  {
    NoneSkipped(scratch[1..]);
    var skipped := SkippedOf(scratch);
    assert skipped == [scratch[0]] && skipped[0].id == scratch[0].id;
  }

  lemma {:induction false} NoneSkipped(scratch: seq<Project>)
    requires forall p <- scratch :: !Oversized(p)
    ensures SkippedOf(scratch) == []
  {
    if scratch != [] {
      NoneSkipped(scratch[1..]);
    }
  }

  predicate ByTime(scratch: seq<Project>) {
    forall i, j :: 0 <= i < j < |scratch| ==> scratch[i].updatedAt < scratch[j].updatedAt
  }

  // Listed oldest first, and none kept: the first is the next to go.
  lemma InTurn(scratch: seq<Project>)
    requires scratch != [] && ByTime(scratch)
    ensures Oldest(scratch, "") == Some(0) && Without(scratch, 0) == scratch[1..]
    ensures Order(scratch, "") == [scratch[0]] + Order(scratch[1..], "")
  {
    OldestIs(scratch, "");
    assert !Kept(scratch[0], "");
    assert Without(scratch, 0) == scratch[1..];
  }

  lemma {:induction false} SumEven(scratch: seq<Project>, skipped: set<string>, size: nat)
    requires forall p <- scratch :: p.id !in skipped && p.size == size
    ensures Sum(scratch, skipped) == |scratch| * size
  {
    if scratch != [] {
      SumEven(scratch[..|scratch| - 1], skipped, size);
      assert scratch[|scratch| - 1] in scratch;
    }
  }

  lemma {:induction false} AllInTurn(scratch: seq<Project>)
    requires ByTime(scratch)
    ensures Order(scratch, "") == scratch
  {
    if scratch != [] {
      InTurn(scratch);
      AllInTurn(scratch[1..]);
    }
  }

  lemma {:induction false} LeftInTurn(scratch: seq<Project>, k: nat)
    requires ByTime(scratch) && k <= |scratch| == |Order(scratch, "")|
    ensures Left(scratch, "", k) == scratch[k..]
  {
    if k > 0 {
      InTurn(scratch);
      LeftInTurn(scratch[1..], k - 1);
      assert scratch[1..][k - 1..] == scratch[k..];
    }
  }

  // The first is left out and one more is too many: both go.
  lemma TwoGo(frame: Frame, scratch: seq<Project>, skipped: set<string>)
    requires |scratch| > 1 && ByTime(scratch) && scratch[0].id in skipped
    requires frame.base + Sum(scratch[1..], skipped) > MAX_ENVELOPE_BYTES >= frame.base + Sum(scratch[2..], skipped)
    ensures Stops(frame, scratch, "", skipped, 2) && Bare(frame, scratch, skipped) > MAX_ENVELOPE_BYTES
  {
    BareInTurn(frame, scratch, skipped, 0);
    BareInTurn(frame, scratch, skipped, 1);
    BareInTurn(frame, scratch, skipped, 2);
    EvictionFrees(frame, scratch, "", skipped, 0);
    assert scratch[0..] == scratch;
    StopsAtTwo(frame, scratch, "", skipped);
  }

  lemma BareInTurn(frame: Frame, scratch: seq<Project>, skipped: set<string>, k: nat)
    requires ByTime(scratch) && k <= |scratch|
    ensures |Order(scratch, "")| == |scratch|
    ensures BareLeft(frame, scratch, "", skipped, k) == frame.base + Sum(scratch[k..], skipped)
  {
    AllInTurn(scratch);
    LeftInTurn(scratch, k);
  }

  lemma StopsAtTwo(frame: Frame, scratch: seq<Project>, keep: string, skipped: set<string>)
    requires |Order(scratch, keep)| >= 2
    requires BareLeft(frame, scratch, keep, skipped, 0) > MAX_ENVELOPE_BYTES
    requires BareLeft(frame, scratch, keep, skipped, 1) > MAX_ENVELOPE_BYTES >= BareLeft(frame, scratch, keep, skipped, 2)
    ensures Stops(frame, scratch, keep, skipped, 2)
  {
    forall k | 0 <= k < 2
      ensures BareLeft(frame, scratch, keep, skipped, k) > MAX_ENVELOPE_BYTES
    {
      assert k == 0 || k == 1;
    }
  }

  // ---- the retry -----------------------------------------------------------------------------

  // With this one gone the images fit that did not before.
  predicate ImagesReturn(frame: Frame, scratch: seq<Project>, keep: string, skipped: set<string>, n: nat)
    requires n < |Order(scratch, keep)|
  {
    && frame.images.Some?
    && BareLeft(frame, scratch, keep, skipped, n) + frame.images.value > MAX_ENVELOPE_BYTES
    && BareLeft(frame, scratch, keep, skipped, n + 1) + frame.images.value <= MAX_ENVELOPE_BYTES
  }

  // The project takes room, and more than the images if it lets them back in.
  predicate Lightens(frame: Frame, scratch: seq<Project>, keep: string, skipped: set<string>, n: nat)
    requires n < |Order(scratch, keep)|
  {
    var w := Weight(Order(scratch, keep)[n], skipped);
    w > 0 && (ImagesReturn(frame, scratch, keep, skipped, n) ==> frame.images.value < w)
  }

  // What the text for storage loses by an eviction and gains by its images.
  lemma RetryWeighs(frame: Frame, scratch: seq<Project>, keep: string, skipped: set<string>, n: nat)
    requires n < |Order(scratch, keep)|
    ensures var gained := if ImagesReturn(frame, scratch, keep, skipped, n) then frame.images.value else 0;
            TextLeft(frame, scratch, keep, skipped, n + 1).size + Weight(Order(scratch, keep)[n], skipped) ==
            TextLeft(frame, scratch, keep, skipped, n).size + gained
    ensures TextLeft(frame, scratch, keep, skipped, n + 1).size < TextLeft(frame, scratch, keep, skipped, n).size <==>
            Lightens(frame, scratch, keep, skipped, n)
  {
    EvictionFrees(frame, scratch, keep, skipped, n);
  }

  // A retry with more than storage refused: with the older project gone the images
  // are back.
  lemma RetryGrows()
    ensures var a, b := Project("a", "old", 1, 32000, 33000), Project("b", "new", 2, 32000, 33000);
            var frame, scratch, skipped := Frame(140000, Some(60000)), [a, b], IdsOf(SkippedOf([a, b]));
            && Order(scratch, "b") == [a] && Stops(frame, scratch, "b", skipped, 0)
            && TextLeft(frame, scratch, "b", skipped, 0) == Text(206000, false)
            && TextLeft(frame, scratch, "b", skipped, 1) == Text(233000, true)
  {
    var a, b := Project("a", "old", 1, 32000, 33000), Project("b", "new", 2, 32000, 33000);
    var scratch := [a, b];
    NoneSkipped(scratch);
    KeepsSecond(a, b);
    SumEven(scratch, {}, 33000);
    SumEven([b], {}, 33000);
    assert IdsOf([]) == {};
  }

  lemma KeepsSecond(a: Project, b: Project)
    requires b.id != "" && a.id != b.id
    ensures Order([a, b], b.id) == [a] && Left([a, b], b.id, 1) == [b]
  {
    OldestIs([a, b], b.id);
    assert Oldest([a, b], b.id) == Some(0) by {
      assert !Kept([a, b][0], b.id) && Kept([a, b][1], b.id);
    }
    assert Without([a, b], 0) == [b];
    OldestIs([b], b.id);
  }

  function NamesOf(projects: seq<Project>): seq<string> {
    seq(|projects|, i requires 0 <= i < |projects| => projects[i].name)
  }

  function NoteFor(evicted: seq<Project>, otherwise: Note): Note {
    if evicted == [] then otherwise else EvictedNote(NamesOf(evicted))
  }

  // The texts: the first when `fitted` have gone and it fits, and after a full
  // storage another with one project less, if there is one that may go.
  predicate Handed(frame: Frame, before: seq<Project>, keep: string, first: Stored, fitted: nat, w: Written) {
    && Stops(frame, before, keep, IdsOf(w.skipped), fitted)
    && var retried := first.Quota? && fitted < |Order(before, keep)|;
    && |w.evicted| == (if retried then fitted + 1 else fitted)
    && |w.handed| == (if retried then 2 else 1)
    && w.handed[0] == TextLeft(frame, before, keep, IdsOf(w.skipped), fitted)
    && (retried ==>
          && w.handed[1] == TextLeft(frame, before, keep, IdsOf(w.skipped), fitted + 1)
          && (w.handed[1].size < w.handed[0].size <==> Lightens(frame, before, keep, IdsOf(w.skipped), fitted)))
  }

  // What the reader is told.
  predicate Noted(w: Written, hasStorage: bool, first: Stored) {
    w.note == if !hasStorage || first.Refused? then DisabledUnavailable
              else if !w.ok then DisabledQuota
              else if w.evicted != [] then EvictedNote(NamesOf(w.evicted))
              else if w.handed != [] && !w.handed[0].images then ImagesSkipped
              else NoNote
  }

  class Envelope {
    const frame: Frame
    var scratch: seq<Project>

    constructor (frame: Frame, scratch: seq<Project>)
      ensures this.frame == frame && this.scratch == scratch
    {
      this.frame := frame;
      this.scratch := scratch;
    }

    // `evictOldest`: the project that went.
    method EvictOldest(keep: string) returns (removed: Option<Project>, ghost at: nat)
      modifies this
      ensures removed.Some? ==> Oldest(old(scratch), keep) == Some(at)
      ensures removed.None? <==> OnlyKept(old(scratch), keep)
      ensures removed.None? ==> scratch == old(scratch)
      ensures removed.Some? ==> IsOldest(old(scratch), keep, at)
      ensures removed.Some? ==> removed.value == old(scratch)[at] && scratch == Without(old(scratch), at)
    {
      var oldest := OldestIndex(scratch, keep);
      if oldest.None? {
        return None, 0;
      }
      at := oldest.value;
      removed := Some(scratch[oldest.value]);
      scratch := Without(scratch, oldest.value);
    }

    // Evicts until what is written without images is within the cap, and no further.
    method FitProjects(keep: string, skipped: set<string>) returns (evicted: seq<Project>)
      modifies this
      ensures Stops(frame, old(scratch), keep, skipped, |evicted|)
      ensures Gone(old(scratch), keep, scratch, evicted) && Evicted(old(scratch), scratch, evicted, keep)
      ensures Bare(frame, scratch, skipped) <= MAX_ENVELOPE_BYTES || OnlyKept(scratch, keep)
    {
      evicted := FitLoop(keep, skipped);
      GoneEvicts(old(scratch), keep, scratch, evicted);
      GoneStops(frame, old(scratch), keep, skipped, scratch, evicted);
    }

    method FitLoop(keep: string, skipped: set<string>) returns (evicted: seq<Project>)
      modifies this
      ensures Gone(old(scratch), keep, scratch, evicted) && Over(frame, old(scratch), keep, skipped, |evicted|)
      ensures Bare(frame, scratch, skipped) <= MAX_ENVELOPE_BYTES || OnlyKept(scratch, keep)
    {
      evicted := [];
      while Bare(frame, scratch, skipped) > MAX_ENVELOPE_BYTES
        invariant Gone(old(scratch), keep, scratch, evicted) && Over(frame, old(scratch), keep, skipped, |evicted|)
        decreases |scratch|
      {
        ghost var before := scratch;
        var removed;
        ghost var i;
        removed, i := EvictOldest(keep);
        if removed.None? {
          break;
        }
        GoneMore(frame, old(scratch), keep, skipped, before, evicted);
        evicted := evicted + [removed.value];
      }
    }

    // Projects evicted until the text fits, and the text.
    method FirstText(keep: string, skipped: set<string>) returns (evicted: seq<Project>, text: Text)
      modifies this
      ensures Stops(frame, old(scratch), keep, skipped, |evicted|)
      ensures Gone(old(scratch), keep, scratch, evicted)
      ensures text == TextLeft(frame, old(scratch), keep, skipped, |evicted|)
      ensures text.size <= MAX_ENVELOPE_BYTES || OnlyKept(scratch, keep)
    {
      evicted := FitProjects(keep, skipped);
      text := Serialized(frame, scratch, skipped);
    }

    // One more evicted for the retry, if there is one, and the text then.
    method SecondText(keep: string, skipped: set<string>, ghost before: seq<Project>, evicted: seq<Project>)
      returns (text: Option<Text>, gone: seq<Project>)
      requires Gone(before, keep, scratch, evicted)
      modifies this
      ensures Gone(before, keep, scratch, gone)
      ensures text.None? <==> OnlyKept(old(scratch), keep)
      ensures text.None? <==> |evicted| == |Order(before, keep)|
      ensures text.None? ==> gone == evicted && scratch == old(scratch)
      ensures text.Some? ==>
                |gone| == |evicted| + 1 && text.value == TextLeft(frame, before, keep, skipped, |gone|)
                && Bare(frame, scratch, skipped) <= Bare(frame, old(scratch), skipped)
      ensures text.Some? ==>
                (text.value.size < TextLeft(frame, before, keep, skipped, |evicted|).size <==>
                 Lightens(frame, before, keep, skipped, |evicted|))
    {
      LeftLast(before, keep, |evicted|);
      var removed;
      ghost var i;
      removed, i := EvictOldest(keep);
      if removed.None? {
        return None, evicted;
      }
      LeftMore(before, keep, |evicted|);
      EvictionFrees(frame, before, keep, skipped, |evicted|);
      RetryWeighs(frame, before, keep, skipped, |evicted|);
      gone := evicted + [removed.value];
      assert Order(before, keep)[..|gone|] == gone;
      text := Some(Serialized(frame, scratch, skipped));
    }

    // `first` and `second` are what storage makes of the write and of its retry.
    method WriteEnvelope(keep: string, hasStorage: bool, first: Stored, second: Stored)
      returns (w: Written, ghost fitted: nat)
      modifies this
      ensures w.skipped == if hasStorage then SkippedOf(old(scratch)) else []
      ensures Gone(old(scratch), keep, scratch, w.evicted) && Evicted(old(scratch), scratch, w.evicted, keep)
      ensures !hasStorage ==> w.evicted == [] && w.handed == []
      ensures hasStorage ==> Handed(frame, old(scratch), keep, first, fitted, w)
      ensures forall text <- w.handed :: text.size <= MAX_ENVELOPE_BYTES || OnlyKept(scratch, keep)
      ensures w.ok <==> hasStorage && (first.Took? || (first.Quota? && |w.handed| == 2 && second.Took?))
      ensures Noted(w, hasStorage, first)
    {
      if hasStorage {
        w, fitted := WriteTo(keep, first, second);
      } else {
        w, fitted := Written(false, DisabledUnavailable, [], [], []), 0;
      }
      GoneEvicts(old(scratch), keep, scratch, w.evicted);
    }

    method WriteTo(keep: string, first: Stored, second: Stored) returns (w: Written, ghost fitted: nat)
      modifies this
      ensures w.skipped == SkippedOf(old(scratch))
      ensures Gone(old(scratch), keep, scratch, w.evicted)
      ensures Handed(frame, old(scratch), keep, first, fitted, w)
      ensures forall text <- w.handed :: text.size <= MAX_ENVELOPE_BYTES || OnlyKept(scratch, keep)
      ensures w.ok <==> first.Took? || (first.Quota? && |w.handed| == 2 && second.Took?)
      ensures Noted(w, true, first)
    {
      var skipped := SkippedOf(scratch);
      var evicted, text := FirstText(keep, IdsOf(skipped));
      fitted := |evicted|;
      if first.Took? {
        return Written(true, NoteFor(evicted, if text.images then NoNote else ImagesSkipped), skipped, evicted, [text]), fitted;
      }
      if !first.Quota? {
        return Written(false, DisabledUnavailable, skipped, evicted, [text]), fitted;
      }
      var again, gone := SecondText(keep, IdsOf(skipped), old(scratch), evicted);
      if again.None? {
        return Written(false, DisabledQuota, skipped, gone, [text]), fitted;
      }
      var note := if second.Took? then NoteFor(gone, NoNote) else DisabledQuota;
      w := Written(second.Took?, note, skipped, gone, [text, again.value]);
    }
  }
}
