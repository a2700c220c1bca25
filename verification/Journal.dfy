/**
 The outage journal (src/journal.rs): two tables on disk, an in-process sequence
 counter, and a replay that drains the queue in sequence order.
 */
module Journal {
  import opened Common

  /** What survives a crash: `queued_batches` and the `next_seq` row of `meta`. */
  datatype Disk<+T> = Disk(queued: map<nat, T>, counter: Option<nat>)

  /** The counter an open reads back; a file without one starts at 1. */
  function Recovered<T>(d: Disk<T>): nat {
    if d.counter.Some? then d.counter.value else 1
  }

  /** The one transaction of an append: the entry and `seq + 1`, together or not at all. */
  function Committed<T>(d: Disk<T>, at: nat, entry: T): Disk<T> {
    Disk(d.queued[at := entry], Some(at + 1))
  }

  function Purged<T>(d: Disk<T>, at: nat): Disk<T> {
    d.(queued := d.queued - {at})
  }

  /** No stored key is reachable again by a counter read from disk. */
  ghost predicate CounterAbove<T>(d: Disk<T>) {
    forall k <- d.queued :: k < Recovered(d)
  }

  // ---------------------------------------------------------------- queue order

  lemma {:induction false} LeastOf(s: set<nat>) returns (m: nat)
    requires s != {}
    ensures m in s && forall x <- s :: m <= x
    decreases |s|
  {
    m :| m in s;
    var rest := s - {m};
    if rest != {} {
      var other := LeastOf(rest);
      assert forall x <- s :: x == m || x in rest;
      if other < m {
        m := other;
      }
    }
  }

  function Least(s: set<nat>): (m: nat)
    requires s != {}
    ensures m in s
    ensures forall x <- s :: m <= x
  {
    assert exists m :: m in s && forall x <- s :: m <= x by { var m := LeastOf(s); }
    var m :| m in s && forall x <- s :: m <= x;
    m
  }

  /** The keys as replay meets them, least first. */
  function Ascending(ks: set<nat>): (p: seq<nat>)
    ensures |p| == |ks|
  {
    if ks == {} then [] else
      var m := Least(ks);
      [m] + Ascending(ks - {m})
  }

  /** The order lists every key once, increasing. */
  lemma {:induction false} AscendingSorts(ks: set<nat>)
    ensures forall k :: k in ks <==> k in Ascending(ks)
    ensures Increasing(Ascending(ks))
  {
    if ks != {} {
      AscendingSorts(ks - {Least(ks)});
      var rest := Ascending(ks - {Least(ks)});
      forall i | 0 <= i < |rest| ensures Least(ks) < rest[i] {
        assert rest[i] in rest;
      }
    }
  }

  lemma AscendingTail(ks: set<nat>)
    requires ks != {}
    ensures Ascending(ks)[0] == Least(ks)
    ensures Ascending(ks - {Least(ks)}) == Ascending(ks)[1..]
  {
  }

  lemma LeastUnique(s: set<nat>, m: nat)
    requires m in s && forall x <- s :: m <= x
    ensures Least(s) == m
  {
  }

  /** A key above all others goes last and moves nothing else. */
  lemma {:induction false} AscendingAppend(ks: set<nat>, at: nat)
    requires forall k <- ks :: k < at
    ensures Ascending(ks + {at}) == Ascending(ks) + [at]
  {
    if ks == {} {
      LeastUnique(ks + {at}, at);
      assert ks + {at} - {at} == {};
    } else {
      var m := Least(ks);
      LeastUnique(ks + {at}, m);
      assert ks + {at} - {m} == (ks - {m}) + {at};
      AscendingAppend(ks - {m}, at);
    }
  }

  /** `order` is the replay order; a name for it that does not unfold. */
  ghost predicate IsReplayOrder(order: set<nat> -> seq<nat>) {
    forall ks {:trigger Ascending(ks)} :: order(ks) == Ascending(ks)
  }

  lemma OrderNext(order: set<nat> -> seq<nat>, ks: set<nat>, at: nat)
    requires IsReplayOrder(order) && at in ks && forall k <- ks :: at <= k
    ensures order(ks) != [] && order(ks)[0] == at && order(ks - {at}) == order(ks)[1..]
  {
    LeastUnique(ks, at);
    AscendingTail(ks);
  }

  lemma OrderNothing(order: set<nat> -> seq<nat>)
    requires IsReplayOrder(order)
    ensures order({}) == []
  {
    assert Ascending({}) == [];
  }

  ghost function EntriesAt<T>(q: map<nat, T>, ks: seq<nat>): (r: seq<T>)
    requires forall i :: 0 <= i < |ks| ==> ks[i] in q
  {
    seq(|ks|, i requires 0 <= i < |ks| => q[ks[i]])
  }

  lemma AscendingMembers(ks: set<nat>)
    ensures forall i :: 0 <= i < |Ascending(ks)| ==> Ascending(ks)[i] in ks
  {
    AscendingSorts(ks);
    forall i | 0 <= i < |Ascending(ks)| ensures Ascending(ks)[i] in ks { assert Ascending(ks)[i] in Ascending(ks); }
  }

  /** The queued entries, oldest first. */
  ghost function Entries<T>(q: map<nat, T>): (r: seq<T>)
    ensures |r| == |q.Keys|
  {
    AscendingMembers(q.Keys);
    EntriesAt(q, Ascending(q.Keys))
  }

  lemma EntriesPurge<T>(q: map<nat, T>)
    requires q.Keys != {}
    ensures Entries(q) != [] && Entries(q)[0] == q[Least(q.Keys)]
    ensures Entries(q - {Least(q.Keys)}) == Entries(q)[1..]
  {
    var m := Least(q.Keys);
    AscendingMembers(q.Keys);
    AscendingMembers(q.Keys - {m});
    AscendingTail(q.Keys);
    assert (q - {m}).Keys == q.Keys - {m};
  }

  lemma EntriesAppend<T>(q: map<nat, T>, at: nat, entry: T)
    requires forall k <- q :: k < at
    ensures Entries(q[at := entry]) == Entries(q) + [entry]
  {
    AscendingMembers(q.Keys);
    AscendingMembers(q.Keys + {at});
    AscendingAppend(q.Keys, at);
    assert q[at := entry].Keys == q.Keys + {at};
    EntriesAtAppend(q, Ascending(q.Keys), at, entry);
  }

  /** An append by the file's own counter goes last in replay order and keeps the file sound. */
  lemma CommitGoesLast<T>(d: Disk<T>, at: nat, entry: T)
    requires CounterAbove(d) && Recovered(d) <= at
    ensures Entries(Committed(d, at, entry).queued) == Entries(d.queued) + [entry] && CounterAbove(Committed(d, at, entry))
  {
    EntriesAppend(d.queued, at, entry);
  }

  lemma EntriesAtAppend<T>(q: map<nat, T>, ks: seq<nat>, at: nat, entry: T)
    requires at !in q && forall i :: 0 <= i < |ks| ==> ks[i] in q
    ensures EntriesAt(q[at := entry], ks + [at]) == EntriesAt(q, ks) + [entry]
  {
  }

  // ---------------------------------------------------------------- interleaved appends

  /** A number handed out by `fetch_add` whose transaction has not ended yet. */
  datatype Reservation<+T> = Reservation(at: nat, entry: T)

  /**
   The journal with appends split at `fetch_add`. `handedOut` are the numbers this
   process has drawn, `history` the keys ever committed, oldest first.
   */
  datatype State<+T> = State(
    disk: Disk<T>, nextSeq: nat, inFlight: seq<Reservation<T>>, handedOut: seq<nat>, history: seq<nat>)

  datatype Step<+T> =
    | Reserve(entry: T)
    | Commit(i: nat)
    | Abandon(i: nat)   // the transaction failed; the number is burnt
    | Remove(at: nat)
    | Reopen            // crash or restart: in-flight appends vanish, the counter is re-read

  predicate Enabled<T>(s: State<T>, step: Step<T>) {
    match step
    case Commit(i) => i < |s.inFlight|
    case Abandon(i) => i < |s.inFlight|
    case _ => true
  }

  function Drop<T>(xs: seq<T>, i: nat): seq<T>
    requires i < |xs|
  {
    xs[..i] + xs[i + 1..]
  }

  function Next<T>(s: State<T>, step: Step<T>): State<T>
    requires Enabled(s, step)
  {
    match step
    case Reserve(e) =>
      s.(nextSeq := s.nextSeq + 1,
         inFlight := s.inFlight + [Reservation(s.nextSeq, e)],
         handedOut := s.handedOut + [s.nextSeq])
    case Commit(i) =>
      var r := s.inFlight[i];
      s.(disk := Committed(s.disk, r.at, r.entry),
         inFlight := Drop(s.inFlight, i),
         history := s.history + [r.at])
    case Abandon(i) => s.(inFlight := Drop(s.inFlight, i))
    case Remove(at) => s.(disk := Purged(s.disk, at))
    case Reopen => s.(nextSeq := Recovered(s.disk), inFlight := [], handedOut := [])
  }

  ghost predicate IsRun<T>(states: seq<State<T>>, steps: seq<Step<T>>) {
    && |states| == |steps| + 1
    && forall i :: 0 <= i < |steps| ==> Enabled(states[i], steps[i]) && states[i + 1] == Next(states[i], steps[i])
  }

  /** The single-writer discipline (src/queue.rs:240-242): commits follow reservation order. */
  ghost predicate InOrder<T>(steps: seq<Step<T>>) {
    forall i :: 0 <= i < |steps| && steps[i].Commit? ==> steps[i].i == 0
  }

  function Opened<T>(d: Disk<T>): State<T> {
    State(d, Recovered(d), [], [], [])
  }

  ghost predicate Increasing(xs: seq<nat>) {
    forall i, j :: 0 <= i < j < |xs| ==> xs[i] < xs[j]
  }

  lemma IncreasingAppend(xs: seq<nat>, x: nat)
    requires Increasing(xs) && forall i :: 0 <= i < |xs| ==> xs[i] < x
    ensures Increasing(xs + [x])
  {
  }

  ghost predicate Issued<T>(s: State<T>) {
    && Increasing(s.handedOut)
    && (forall i :: 0 <= i < |s.handedOut| ==> s.handedOut[i] < s.nextSeq)
    && (forall i :: 0 <= i < |s.inFlight| ==> s.inFlight[i].at < s.nextSeq)
    && (forall i, j :: 0 <= i < j < |s.inFlight| ==> s.inFlight[i].at < s.inFlight[j].at)
  }

  lemma DropKeeps<T>(xs: seq<T>, i: nat)
    requires i < |xs|
    ensures |Drop(xs, i)| == |xs| - 1
    ensures forall k :: 0 <= k < |Drop(xs, i)| ==> Drop(xs, i)[k] == if k < i then xs[k] else xs[k + 1]
  {
  }

  lemma StepIssued<T>(s: State<T>, step: Step<T>)
    requires Issued(s) && Enabled(s, step)
    ensures Issued(Next(s, step))
  {
  }

  /**
   Whatever the interleaving of reservations, commits, failures and purges, the
   numbers one process draws are distinct, and so are those still in flight.
   */
  lemma {:induction false} NumbersAreDistinct<T>(states: seq<State<T>>, steps: seq<Step<T>>, d: Disk<T>)
    requires IsRun(states, steps) && states[0] == Opened(d)
    ensures forall s <- states :: Increasing(s.handedOut)
    ensures forall s <- states :: forall i, j :: 0 <= i < j < |s.inFlight| ==> s.inFlight[i].at != s.inFlight[j].at
  {
    forall n | 0 <= n < |states| ensures Issued(states[n]) { RunIssued(states, steps, d, n); }
  }

  lemma {:induction false} RunIssued<T>(states: seq<State<T>>, steps: seq<Step<T>>, d: Disk<T>, n: nat)
    requires IsRun(states, steps) && states[0] == Opened(d) && n < |states|
    ensures Issued(states[n])
  {
    if n > 0 {
      RunIssued(states, steps, d, n - 1);
      StepIssued(states[n - 1], steps[n - 1]);
    }
  }

  /** Holds at every state of an in-order run over a file that starts sound. */
  ghost predicate Sequenced<T>(s: State<T>, floor: nat) {
    && Issued(s)
    && Increasing(s.history)
    && floor <= Recovered(s.disk) <= s.nextSeq
    && (forall i :: 0 <= i < |s.history| ==> floor <= s.history[i] < Recovered(s.disk))
    && (forall k <- s.disk.queued :: k < Recovered(s.disk))
    && (forall i :: 0 <= i < |s.inFlight| ==> Recovered(s.disk) <= s.inFlight[i].at < s.nextSeq)
  }

  lemma StepSequenced<T>(s: State<T>, step: Step<T>, floor: nat)
    requires Sequenced(s, floor) && Enabled(s, step) && (step.Commit? ==> step.i == 0)
    ensures Sequenced(Next(s, step), floor)
    ensures step.Commit? ==> s.inFlight[0].at !in s.disk.queued && s.inFlight[0].at !in s.history
  {
    StepIssued(s, step);
    if step.Commit? || step.Abandon? {
      DropKeeps(s.inFlight, step.i);
    }
    if step.Commit? {
      IncreasingAppend(s.history, s.inFlight[0].at);
    }
  }

  lemma {:induction false} RunSequenced<T>(states: seq<State<T>>, steps: seq<Step<T>>, d: Disk<T>, n: nat)
    requires IsRun(states, steps) && InOrder(steps) && states[0] == Opened(d) && CounterAbove(d)
    requires n < |states|
    ensures Sequenced(states[n], Recovered(d))
  {
    if n > 0 {
      RunSequenced(states, steps, d, n - 1);
      StepSequenced(states[n - 1], steps[n - 1], Recovered(d));
    }
  }

  /**
   With commits in reservation order, over any number of failed commits, purges,
   crashes and reopens: the stored counter stays above every key ever stored, and
   no commit lands on a key that was stored before, whether still queued or purged.
   */
  lemma {:induction false} NoAppendOverwrites<T>(states: seq<State<T>>, steps: seq<Step<T>>, d: Disk<T>)
    requires IsRun(states, steps) && InOrder(steps) && states[0] == Opened(d) && CounterAbove(d)
    ensures forall s <- states :: CounterAbove(s.disk) && Increasing(s.history)
    ensures forall s <- states :: forall n <- s.history :: Recovered(d) <= n < Recovered(s.disk)
    ensures forall i :: 0 <= i < |steps| && steps[i].Commit? ==>
              states[i].inFlight[0].at !in states[i].disk.queued && states[i].inFlight[0].at !in states[i].history
  {
    forall n | 0 <= n < |states| ensures Sequenced(states[n], Recovered(d)) {
      RunSequenced(states, steps, d, n);
    }
    forall i | 0 <= i < |steps| && steps[i].Commit?
      ensures states[i].inFlight[0].at !in states[i].disk.queued && states[i].inFlight[0].at !in states[i].history
    {
      StepSequenced(states[i], steps[i], Recovered(d));
    }
  }

  /**
   The ordering is needed: two appends whose commits swap leave a counter below a
   queued key, and after a reopen the next append replaces the second batch.
   */
  lemma SwappedCommitsLoseAnEntry<T>(a: T, b: T, c: T) returns (states: seq<State<T>>, steps: seq<Step<T>>)
    ensures steps == [Reserve(a), Reserve(b), Commit(1), Commit(0), Reopen, Reserve(c), Commit(0)]
    ensures IsRun(states, steps) && states[0] == Opened(Disk(map[], None))
    ensures states[4].disk.queued == map[1 := a, 2 := b] && !CounterAbove(states[4].disk)
    ensures states[7].disk.queued == map[1 := a, 2 := c]
  {
    steps := [Reserve(a), Reserve(b), Commit(1), Commit(0), Reopen, Reserve(c), Commit(0)];
    var s0, s1, s2, s3, s4 := CommitsSwap(a, b);
    var s5, s6, s7 := ReopenReplaces(s4, a, b, c);
    states := [s0, s1, s2, s3, s4, s5, s6, s7];
    assert 2 in states[4].disk.queued;
  }

  lemma CommitsSwap<T>(a: T, b: T) returns (s0: State<T>, s1: State<T>, s2: State<T>, s3: State<T>, s4: State<T>)
    ensures s0 == Opened(Disk(map[], None)) && s1 == Next(s0, Reserve(a)) && s2 == Next(s1, Reserve(b))
    ensures Enabled(s2, Commit(1)) && s3 == Next(s2, Commit(1)) && Enabled(s3, Commit(0)) && s4 == Next(s3, Commit(0))
    ensures s4.disk == Disk(map[1 := a, 2 := b], Some(2))
  {
    s0 := Opened(Disk(map[], None));
    s1 := Next(s0, Reserve(a));
    s2 := Next(s1, Reserve(b));
    assert s2.inFlight == [Reservation(1, a), Reservation(2, b)];
    s3 := Next(s2, Commit(1));
    assert s3.inFlight == [Reservation(1, a)];
    s4 := Next(s3, Commit(0));
  }

  lemma ReopenReplaces<T>(s4: State<T>, a: T, b: T, c: T) returns (s5: State<T>, s6: State<T>, s7: State<T>)
    requires s4.disk == Disk(map[1 := a, 2 := b], Some(2))
    ensures s5 == Next(s4, Reopen) && s6 == Next(s5, Reserve(c)) && Enabled(s6, Commit(0)) && s7 == Next(s6, Commit(0))
    ensures s7.disk.queued == map[1 := a, 2 := c]
  {
    s5 := Next(s4, Reopen);
    s6 := Next(s5, Reserve(c));
    assert s6.inFlight == [Reservation(2, c)];
    s7 := Next(s6, Commit(0));
  }

  /** `n` successful single-writer appends after an open. */
  function Appended<T>(d: Disk<T>, entry: T, n: nat): Disk<T> {
    if n == 0 then d else
      var before := Appended(d, entry, n - 1);
      Committed(before, Recovered(d) + n - 1, entry)
  }

  function Interval(lo: nat, n: nat): (r: set<nat>)
    ensures forall k :: k in r <==> lo <= k < lo + n
    ensures |r| == n
  {
    if n == 0 then {} else Interval(lo, n - 1) + {lo + n - 1}
  }

  lemma {:induction false} AppendedKeys<T>(d: Disk<T>, entry: T, n: nat)
    ensures forall k: nat :: k in Appended(d, entry, n).queued <==> k in d.queued || Recovered(d) <= k < Recovered(d) + n
  {
    if n > 0 {
      AppendedKeys(d, entry, n - 1);
    }
  }

  lemma OverlapSize<T>(a: set<T>, b: set<T>)
    ensures a !! b ==> |a + b| == |a| + |b|
    ensures !(a !! b) ==> |a + b| < |a| + |b|
  {
    assert a + b == a + (b - a);
    assert b == (b - a) + (b * a);
  }

  /**
   A journal file is safe to append to after a reopen exactly when its counter is
   above its keys: otherwise some number of later appends replaces a queued batch.
   */
  lemma {:induction false} ReopenSafeIff<T>(d: Disk<T>, entry: T)
    ensures CounterAbove(d) <==> forall n: nat :: |Appended(d, entry, n).queued.Keys| == |d.queued.Keys| + n
  {
    forall n: nat
      ensures |Appended(d, entry, n).queued.Keys| == |d.queued.Keys| + n <==> d.queued.Keys !! Interval(Recovered(d), n)
    {
      AppendedKeys(d, entry, n);
      assert Appended(d, entry, n).queued.Keys == d.queued.Keys + Interval(Recovered(d), n);
      OverlapSize(d.queued.Keys, Interval(Recovered(d), n));
    }
    if !CounterAbove(d) {
      var k :| k in d.queued && Recovered(d) <= k;
      var n := k - Recovered(d) + 1;
      assert k in Interval(Recovered(d), n);
      assert |Appended(d, entry, n).queued.Keys| != |d.queued.Keys| + n;
    }
  }

  // ---------------------------------------------------------------- the journal object

  datatype Cause = ReadFails | HandlerFails | PurgeFails

  /** The first round of a replay that does not complete, and why; the rest complete. */
  datatype Halt = Halt(round: nat, cause: Cause)

  /** How far a replay gets, whether it reports success, and how many entries it hands over, by where it halts. */
  ghost predicate ReplayCounts(halt: Option<Halt>, n: nat, replayed: nat, ok: bool, handed: nat) {
    && replayed == (if halt.Some? && halt.value.round < n then halt.value.round else n)
    && (ok <==> halt.None? || n < halt.value.round || (n == halt.value.round && halt.value.cause != ReadFails))
    && handed == (if replayed < n && halt.value.cause != ReadFails then replayed + 1 else replayed)
  }

  ghost predicate HandedInOrder<T>(q: map<nat, T>, all: seq<nat>, handled: seq<(nat, T)>) {
    |handled| <= |all| && forall i :: 0 <= i < |handled| ==> all[i] in q && handled[i] == (all[i], q[all[i]])
  }

  lemma HandedOneMore<T>(q: map<nat, T>, all: seq<nat>, handled: seq<(nat, T)>, entry: (nat, T))
    requires HandedInOrder(q, all, handled) && |handled| < |all| && all[|handled|] in q && entry == (all[|handled|], q[all[|handled|]])
    ensures HandedInOrder(q, all, handled + [entry])
  {
  }

  class JournalFile {
    var queued: map<nat, seq<int>>
    var counter: Option<nat>
    var nextSeq: nat

    ghost function View(): Disk<seq<int>>
      reads this
    {
      Disk(queued, counter)
    }

    /** `next_seq` never falls behind the file, so a single writer stays sequenced. */
    ghost predicate Valid()
      reads this
    {
      CounterAbove(View()) && Recovered(View()) <= nextSeq
    }

    constructor Open(file: Disk<seq<int>>)
      ensures View() == file && nextSeq == Recovered(file)
      ensures CounterAbove(file) ==> Valid()
    {
      queued := file.queued;
      counter := file.counter;
      nextSeq := if file.counter.Some? then file.counter.value else 1;
    }

    /** `commits` is whether the transaction lands; the number is spent either way. A sound file stays sound. */
    method Append(bytes: seq<int>, commits: bool) returns (r: Option<nat>)
      modifies this
      ensures old(Valid()) ==> Valid()
      ensures nextSeq == old(nextSeq) + 1
      ensures r == if commits then Some(old(nextSeq)) else None
      ensures View() == if commits then Committed(old(View()), old(nextSeq), bytes) else old(View())
      ensures old(Valid()) && commits ==> Entries(View().queued) == Entries(old(View()).queued) + [bytes]
    {
      var at := nextSeq;
      nextSeq := nextSeq + 1;
      if commits {
        if old(Valid()) {
          CommitGoesLast(View(), at, bytes);
        }
        queued := queued[at := bytes];
        counter := Some(at + 1);
        r := Some(at);
      } else {
        r := None;
      }
    }

    method Purge(at: nat, commits: bool) returns (ok: bool)
      modifies this`queued
      ensures old(Valid()) ==> Valid()
      ensures ok == commits
      ensures View() == if commits then Purged(old(View()), at) else old(View())
    {
      if commits {
        queued := queued - {at};
      }
      ok := commits;
    }

    /**
     `handled` lists the entries the handler was called with, in order. Exactly the
     completed prefix of the queue is purged; the suffix from the failing entry stays.
     */
    method Replay(halt: Option<Halt>) returns (replayed: nat, ok: bool, handled: seq<(nat, seq<int>)>)
      modifies this`queued
      ensures old(Valid()) ==> Valid()
      ensures var all := Ascending(old(queued).Keys);
              && replayed <= |all| && Ascending(queued.Keys) == all[replayed..]
              && ReplayCounts(halt, |all|, replayed, ok, |handled|)
              && HandedInOrder(old(queued), all, handled)
      ensures forall k <- queued :: k in old(queued) && queued[k] == old(queued)[k]
    {
      ghost var order := (ks: set<nat>) => Ascending(ks);
      assert order(queued.Keys) == Ascending(queued.Keys);
      replayed, ok, handled := ReplayRounds(halt, order);
      assert order(queued.Keys) == Ascending(queued.Keys);
    }

    /** The replay loop, oldest entry first. */
    method ReplayRounds(halt: Option<Halt>, ghost order: set<nat> -> seq<nat>) returns (replayed: nat, ok: bool, handled: seq<(nat, seq<int>)>)
      requires IsReplayOrder(order)
      modifies this`queued
      ensures old(Valid()) ==> Valid()
      ensures var all := order(old(queued).Keys);
              && replayed <= |all| && order(queued.Keys) == all[replayed..]
              && ReplayCounts(halt, |all|, replayed, ok, |handled|)
              && HandedInOrder(old(queued), all, handled)
      ensures forall k <- queued :: k in old(queued) && queued[k] == old(queued)[k]
    {
      replayed, handled := 0, [];
      ghost var all := order(queued.Keys);
      while true
        invariant old(Valid()) ==> Valid()
        invariant replayed <= |all| && |handled| == replayed && (halt.Some? ==> replayed <= halt.value.round)
        invariant order(queued.Keys) == all[replayed..]
        invariant forall k <- queued :: k in old(queued) && queued[k] == old(queued)[k]
        invariant HandedInOrder(old(queued), all, handled)
        decreases |all| - replayed
      {
        var cause := if halt.Some? && halt.value.round == replayed then Some(halt.value.cause) else None;
        ghost var ks := queued.Keys;
        var entry;
        entry, ok := Round(cause);
        if entry.None? {
          OrderNothing(order);
          return;
        }
        OrderNext(order, ks, entry.value.0);
        assert all[replayed] == entry.value.0 && order(ks)[1..] == all[replayed + 1..];
        HandedOneMore(old(queued), all, handled, entry.value);
        handled := handled + [entry.value];
        if !ok {
          return;
        }
        replayed := replayed + 1;
      }
    }

    /** One round: read the oldest entry, hand it over, purge it; `fails` is where the round breaks off. */
    method Round(fails: Option<Cause>) returns (entry: Option<(nat, seq<int>)>, ok: bool)
      modifies this`queued
      ensures old(Valid()) ==> Valid()
      ensures fails == Some(ReadFails) ==> entry.None? && !ok
      ensures fails != Some(ReadFails) ==> (entry.None? <==> old(queued).Keys == {}) && (ok <==> entry.None? || fails.None?)
      ensures entry.Some? ==>
                && entry.value.0 in old(queued) && (forall k <- old(queued) :: entry.value.0 <= k)
                && entry.value.1 == old(queued)[entry.value.0]
      ensures if entry.Some? && ok then queued == old(queued) - {entry.value.0} else queued == old(queued)
      ensures entry.Some? && ok ==> queued.Keys == old(queued).Keys - {entry.value.0}
    {
      if fails == Some(ReadFails) {
        return None, false;
      }
      if queued.Keys == {} {
        return None, true;
      }
      var at := Least(queued.Keys);
      entry := Some((at, queued[at]));
      if fails == Some(HandlerFails) {
        return entry, false;
      }
      ok := Purge(at, fails.None?);
    }

    method PendingCount() returns (n: nat)
      ensures n == |Entries(queued)|
    {
      n := |queued.Keys|;
    }
  }
}
