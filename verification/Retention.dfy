// What the store of operations remembers over a whole run
// (site/src/scripts/playground-operations.ts).
module Retention {
  import opened Collections
  import Wrappers
  import opened Operations

  // Everything that ever happened, which the store itself does not keep: when
  // each operation was created and which were finished.
  datatype History = History(createdAt: map<nat, int>, finished: set<nat>)

  const NOTHING := History(map[], {})

  function Record(s: Store, h: History, step: Step): History {
    match step
    case Create(now) => h.(createdAt := h.createdAt[s.sequence + 1 := now])
    case Finish(op, _, _, _) => if Open(s, op) then h.(finished := h.finished + {op}) else h
    case _ => h
  }

  // ---- the newest of a set -----------------------------------------------------------------

  function At(c: map<nat, int>, n: nat): int {
    if n in c then c[n] else 0
  }

  predicate Before(c: map<nat, int>, a: nat, b: nat) {
    At(c, a) < At(c, b) || (At(c, a) == At(c, b) && a < b)
  }

  function Newer(c: map<nat, int>, among: set<nat>, n: nat): set<nat> {
    set k | k in among && Before(c, n, k)
  }

  // Those with fewer than `max` newer ones.
  function Newest(c: map<nat, int>, among: set<nat>, max: nat): set<nat> {
    set n | n in among && |Newer(c, among, n)| < max
  }

  lemma {:induction false} Latest(c: map<nat, int>, among: set<nat>) returns (z: nat)
    requires among != {}
    ensures z in among && forall k <- among :: k == z || Before(c, k, z)
    decreases |among|
  {
    z :| z in among;
    var rest := among - {z};
    assert among == rest + {z};
    if rest != {} {
      var y := Latest(c, rest);
      assert forall k <- among :: k == z || k in rest;
      if Before(c, z, y) {
        z := y;
      }
    }
  }

  lemma {:induction false} Earliest(c: map<nat, int>, among: set<nat>) returns (z: nat)
    requires among != {}
    ensures z in among && forall k <- among :: k == z || Before(c, z, k)
    decreases |among|
  {
    z :| z in among;
    var rest := among - {z};
    assert among == rest + {z};
    if rest != {} {
      var y := Earliest(c, rest);
      assert forall k <- among :: k == z || k in rest;
      if Before(c, y, z) {
        z := y;
      }
    }
  }

  lemma NewestAtMost(c: map<nat, int>, among: set<nat>, max: nat)
    ensures |Newest(c, among, max)| <= max
  {
    var top := Newest(c, among, max);
    if top != {} {
      var z := Earliest(c, top);
      SubsetSize(top - {z}, Newer(c, among, z));
      assert top == (top - {z}) + {z};
    }
  }

  lemma NewestAll(c: map<nat, int>, among: set<nat>, max: nat)
    requires |among| <= max
    ensures Newest(c, among, max) == among
  {
    forall n <- among
      ensures n in Newest(c, among, max)
    {
      FewerNewer(c, among, n);
    }
  }

  lemma FewerNewer(c: map<nat, int>, among: set<nat>, n: nat)
    requires n in among
    ensures |Newer(c, among, n)| < |among|
  {
    SubsetSize(Newer(c, among, n), among - {n});
    assert among == (among - {n}) + {n};
  }

  // Whoever has `max` newer ones has them among the newest.
  lemma EnoughNewest(c: map<nat, int>, among: set<nat>, max: nat, y: nat)
    requires |Newer(c, among, y)| >= max
    ensures |Newer(c, Newest(c, among, max), y)| >= max
  {
    var top, newer := Newest(c, among, max), Newer(c, among, y);
    if newer <= top {
      SubsetSize(newer, Newer(c, top, y));
    } else {
      var left := newer - top;
      assert exists k :: k in newer && k in left;
      var z := Latest(c, left);
      forall k <- Newer(c, among, z)
        ensures k in Newer(c, top, y)
      {
        assert Before(c, y, z) && Before(c, z, k);
        assert k in newer && k !in left;
      }
      SubsetSize(Newer(c, among, z), Newer(c, top, y));
    }
  }

  // Nothing dropped would have stayed, whatever comes later and in whatever order.
  lemma NewestOfMore(c: map<nat, int>, among: set<nat>, max: nat, x: nat)
    ensures Newest(c, Newest(c, among, max) + {x}, max) == Newest(c, among + {x}, max)
  {
    var top := Newest(c, among, max);
    var few, all := top + {x}, among + {x};
    forall n: nat
      ensures n in Newest(c, few, max) <==> n in Newest(c, all, max)
    {
      SubsetSize(Newer(c, few, n), Newer(c, all, n));
      SubsetSize(Newer(c, among, n), Newer(c, all, n));
      if n in few && |Newer(c, all, n)| >= max {
        NotEnough(c, among, max, x, n);
      }
    }
  }

  lemma NotEnough(c: map<nat, int>, among: set<nat>, max: nat, x: nat, n: nat)
    requires n in Newest(c, among, max) + {x} && |Newer(c, among + {x}, n)| >= max
    ensures |Newer(c, Newest(c, among, max) + {x}, n)| >= max
  {
    var top := Newest(c, among, max);
    if |Newer(c, among, n)| >= max {
      EnoughNewest(c, among, max, n);
      SubsetSize(Newer(c, top, n), Newer(c, top + {x}, n));
    } else {
      // Then `x` is newer than `n` and so `n` is not `x`; what is newer than `n`
      // has fewer newer still, so all of it is among the newest.
      forall k <- Newer(c, among, n)
        ensures k in top
      {
        SubsetSize(Newer(c, among, k), Newer(c, among, n));
      }
      SubsetSize(Newer(c, among + {x}, n), Newer(c, top + {x}, n));
    }
  }

  // ---- what the store remembers of the run ---------------------------------------------------

  // Open operations are all there; of the finished ones there are the newest, by
  // creation and then by number, in whatever order they finished.
  ghost predicate Remembers(s: Store, h: History, max: nat) {
    && RecordsOwn(s)
    && (forall n :: n in h.createdAt <==> 0 < n <= s.sequence)
    && h.finished <= h.createdAt.Keys
    && (forall n <- s.records :: s.records[n].createdAt == h.createdAt[n] && (Terminal(s.records[n].state) <==> n in h.finished))
    && (forall n <- h.createdAt :: n !in h.finished ==> n in s.records)
    && TerminalOps(s.records) == Newest(h.createdAt, h.finished, max)
  }

  // Evicting by rank among the records is keeping the newest of what they hold.
  lemma EvictKeepsNewest(c: map<nat, int>, records: map<nat, Summary>, max: nat)
    requires forall n <- records :: n in c && records[n].op == n && records[n].createdAt == c[n]
    ensures TerminalOps(Evict(records, max)) == Newest(c, TerminalOps(records), max)
  {
    forall n <- records
      ensures NewerOps(records, n) == Newer(c, TerminalOps(records), n)
    {
    }
  }

  lemma FinishRemembers(s: Store, h: History, max: nat, step: Step)
    requires Inv(s) && Remembers(s, h, max) && Enabled(s, step) && step.Finish? && Open(s, step.op)
    ensures Remembers(Next(s, max, step), Record(s, h, step), max)
  {
    var op := step.op;
    var done := s.records[op].(detail := step.detail, state := step.state, finishedAt := Wrappers.Some(step.now));
    var records := s.records[op := done];
    TellMeans(s, op, done);
    EvictKeepsNewest(h.createdAt, records, max);
    assert TerminalOps(records) == TerminalOps(s.records) + {op};
    NewestOfMore(h.createdAt, h.finished, max, op);
  }

  // A new operation comes after everything finished and changes no rank.
  lemma CreateRemembers(s: Store, h: History, max: nat, step: Step)
    requires Inv(s) && Remembers(s, h, max) && step.Create?
    ensures Remembers(Next(s, max, step), Record(s, h, step), max)
  {
    var t, c := Next(s, max, step), h.createdAt[s.sequence + 1 := step.now];
    assert TerminalOps(t.records) == TerminalOps(s.records);
    forall n <- h.finished
      ensures Newer(c, h.finished, n) == Newer(h.createdAt, h.finished, n)
    {
      assert forall k <- h.finished :: At(c, k) == At(h.createdAt, k);
    }
    assert Newest(c, h.finished, max) == Newest(h.createdAt, h.finished, max);
  }

  lemma StepRemembers(s: Store, h: History, max: nat, step: Step)
    requires Inv(s) && Remembers(s, h, max) && Enabled(s, step)
    ensures Remembers(Next(s, max, step), Record(s, h, step), max)
  {
    match step
    case Create(_) => CreateRemembers(s, h, max, step);
    case Finish(op, _, _, _) =>
      if Open(s, op) {
        FinishRemembers(s, h, max, step);
      }
    case Start(op, now) => assert TerminalOps(Next(s, max, step).records) == TerminalOps(s.records);
    case _ =>
  }

  function HistoryOf(s: Store, h: History, max: nat, steps: seq<Step>): History
    requires Sound(s) && Possible(s, max, steps)
    decreases |steps|
  {
    if steps == [] then h else HistoryOf(Next(s, max, steps[0]), Record(s, h, steps[0]), max, steps[1..])
  }

  lemma {:induction false} RunRemembers(s: Store, h: History, max: nat, steps: seq<Step>)
    requires Inv(s) && Remembers(s, h, max) && Possible(s, max, steps)
    ensures Remembers(After(s, max, steps), HistoryOf(s, h, max, steps), max)
    decreases |steps|
  {
    if steps != [] {
      StepKeeps(s, max, steps[0]);
      StepRemembers(s, h, max, steps[0]);
      RunRemembers(Next(s, max, steps[0]), Record(s, h, steps[0]), max, steps[1..]);
    }
  }

  // After any run of a page: every number it gave out is found or expired, found
  // just while it is open or among the newest finished, of which there are at most
  // `max`; and what it never gave out is not found.
  lemma RunLooksUp(max: nat, steps: seq<Step>, id: Id)
    requires Possible(START, max, steps)
    ensures var s, h := After(START, max, steps), HistoryOf(START, NOTHING, max, steps);
            match id
            case Foreign => LookUp(s, id).NotFound?
            case Respelled(n) => LookUp(s, id) == if n in h.createdAt then Expired else NotFound
            case Numbered(n) =>
              && (LookUp(s, id).NotFound? <==> n !in h.createdAt)
              && (LookUp(s, id).Found? <==> n in h.createdAt && (n in h.finished ==> n in Newest(h.createdAt, h.finished, max)))
              && (LookUp(s, id).Expired? ==> n in h.finished)
    ensures |TerminalOps(After(START, max, steps).records)| <= max
  {
    assert TerminalOps(START.records) == Newest(NOTHING.createdAt, NOTHING.finished, max);
    RunRemembers(START, NOTHING, max, steps);
    var s, h := After(START, max, steps), HistoryOf(START, NOTHING, max, steps);
    NewestAtMost(h.createdAt, h.finished, max);
    if id.Numbered? && id.n in h.finished {
      assert id.n in TerminalOps(s.records) <==> id.n in s.records;
    }
  }

  // What an identifier is expired for had finished, unless its number is spelled
  // otherwise and its operation is still open.
  lemma ExpiredExactly(max: nat, steps: seq<Step>, id: Id)
    requires Possible(START, max, steps) && !id.Foreign?
    ensures var s, h := After(START, max, steps), HistoryOf(START, NOTHING, max, steps);
            (LookUp(s, id).Expired? ==> id.n in h.finished) <==> !(id.Respelled? && Open(s, id.n))
  {
    RunLooksUp(max, steps, id);
    assert TerminalOps(START.records) == Newest(NOTHING.createdAt, NOTHING.finished, max);
    RunRemembers(START, NOTHING, max, steps);
  }

  // Such an identifier: of a page's first operation, queued.
  lemma RespelledExpiresEarly(max: nat, now: int)
    ensures var steps := [Create(now)];
            && Possible(START, max, steps)
            && var s := After(START, max, steps);
            && Open(s, 1) && LookUp(s, Numbered(1)).Found? && LookUp(s, Respelled(1)).Expired?
  {
    var steps, t := [Create(now)], Next(START, max, Create(now));
    assert steps[1..] == [] && Possible(t, max, []);
    assert After(START, max, steps) == After(t, max, steps[1..]) == t;
  }
}
