/**
 * One lock per path, kept in a map only while someone holds or waits for it.
 *
 * A lock object lives as long as references to it do. The map holds one, every entry holds one,
 * and an entry that waits for or holds the mutex has a second one in its future or guard.
 */
module KeyLocks {
  import opened Bytes
  import opened KeySets

  type LockId = nat
  type EntryId = nat

  datatype Step =
    /** In the map's books, not yet queued on the mutex; nothing can be dropped between the two. */
    | Entered
    | Queued
    | Holding
    /** Guard dropped, or wait given up; the entry itself is still to be dropped. */
    | Released
    /** The entry's drop has run; its reference is not yet gone. */
    | Closing

  datatype Entry = Entry(path: Text, lock: LockId, step: Step) {
    predicate Live() {
      !step.Closing?
    }

    predicate HasSecondReference() {
      step.Queued? || step.Holding?
    }
  }

  datatype State = State(locks: map<Text, LockId>, entries: map<EntryId, Entry>, next: LockId)

  datatype Event =
    | Enter(e: EntryId, path: Text)
    | Queue(e: EntryId)
    | Grant(e: EntryId)
    | Release(e: EntryId)
    | GiveUp(e: EntryId)
    | Close(e: EntryId)
    | Forget(e: EntryId)

  function InMap(s: State, lock: LockId): set<Text> {
    set p | p in s.locks && s.locks[p] == lock
  }

  function Entries(s: State, lock: LockId): set<EntryId> {
    set e | e in s.entries && s.entries[e].lock == lock
  }

  function WithSecond(s: State, lock: LockId): set<EntryId> {
    set e | e in s.entries && s.entries[e].lock == lock && s.entries[e].HasSecondReference()
  }

  /** How many references to a lock object there are. */
  function StrongCount(s: State, lock: LockId): nat {
    |InMap(s, lock)| + |Entries(s, lock)| + |WithSecond(s, lock)|
  }

  predicate IsHeld(s: State, lock: LockId) {
    exists e | e in s.entries :: s.entries[e].lock == lock && s.entries[e].step.Holding?
  }

  predicate Enabled(s: State, ev: Event) {
    match ev
    case Enter(e, _) => e !in s.entries
    case Queue(e) => e in s.entries && s.entries[e].step.Entered?
    case Grant(e) => e in s.entries && s.entries[e].step.Queued? && !IsHeld(s, s.entries[e].lock)
    case Release(e) => e in s.entries && s.entries[e].step.Holding?
    case GiveUp(e) => e in s.entries && s.entries[e].step.Queued?
    case Close(e) => e in s.entries && s.entries[e].step.Released?
    case Forget(e) => e in s.entries && s.entries[e].step.Closing?
  }

  function To(s: State, e: EntryId, step: Step): State
    requires e in s.entries
  {
    s.(entries := s.entries[e := s.entries[e].(step := step)])
  }

  function Apply(s: State, ev: Event): State
    requires Enabled(s, ev)
  {
    match ev
    case Enter(e, path) =>
      if path in s.locks then s.(entries := s.entries[e := Entry(path, s.locks[path], Entered)])
      else State(s.locks[path := s.next], s.entries[e := Entry(path, s.next, Entered)], s.next + 1)
    case Queue(e) => To(s, e, Queued)
    case Grant(e) => To(s, e, Holding)
    case Release(e) => To(s, e, Released)
    case GiveUp(e) => To(s, e, Released)
    case Close(e) =>
      var entry := s.entries[e];
      To(if StrongCount(s, entry.lock) == 2 then s.(locks := s.locks - {entry.path}) else s, e, Closing)
    case Forget(e) => s.(entries := s.entries - {e})
  }

  // ---- The table as the server keeps it ----

  /** The map behind its own mutex, and the entries handed out from it. */
  class LockTable {
    var locks: map<Text, LockId>
    var entries: map<EntryId, Entry>
    var next: LockId

    function Snapshot(): State
      reads this
    {
      State(locks, entries, next)
    }

    constructor ()
      ensures Snapshot() == State(map[], map[], 0)
    {
      locks, entries, next := map[], map[], 0;
    }

    /** The first half of `lock`: find or make the path's lock object, under the map's mutex. */
    method Enter(e: EntryId, path: Text)
      requires Enabled(Snapshot(), Event.Enter(e, path))
      modifies this
      ensures Snapshot() == Apply(old(Snapshot()), Event.Enter(e, path))
    {
      if path !in locks {
        locks := locks[path := next];
        next := next + 1;
      }
      entries := entries[e := Entry(path, locks[path], Entered)];
    }

    /** The second half: queue on the mutex, whoever holds it. */
    method Wait(e: EntryId)
      requires Enabled(Snapshot(), Queue(e))
      modifies this`entries
      ensures Snapshot() == Apply(old(Snapshot()), Queue(e))
    {
      entries := entries[e := entries[e].(step := Queued)];
    }

    /** The wait ends once nobody else holds the lock. */
    method Acquire(e: EntryId)
      requires Enabled(Snapshot(), Grant(e))
      modifies this`entries
      ensures Snapshot() == Apply(old(Snapshot()), Grant(e))
    {
      entries := entries[e := entries[e].(step := Holding)];
    }

    /** A request that is cancelled while it waits leaves like one that is done. */
    method Abandon(e: EntryId)
      requires Enabled(Snapshot(), GiveUp(e))
      modifies this`locks, this`entries
      ensures var released := Apply(old(Snapshot()), GiveUp(e));
              Snapshot() == Apply(Apply(released, Close(e)), Forget(e))
    {
      entries := entries[e := entries[e].(step := Released)];
      DropEntry(e);
    }

    /** Dropping a guard: the mutex goes first, then the entry decides whether the map still needs it. */
    method DropGuard(e: EntryId)
      requires Enabled(Snapshot(), Release(e))
      modifies this`locks, this`entries
      ensures var released := Apply(old(Snapshot()), Release(e));
              Snapshot() == Apply(Apply(released, Close(e)), Forget(e))
    {
      entries := entries[e := entries[e].(step := Released)];
      DropEntry(e);
    }

    /** Dropping an entry: leave the map when only the map and this entry refer to the lock. */
    method DropEntry(e: EntryId)
      requires Enabled(Snapshot(), Close(e))
      modifies this`locks, this`entries
      ensures Snapshot() == Apply(Apply(old(Snapshot()), Close(e)), Forget(e))
    {
      if StrongCount(Snapshot(), entries[e].lock) == 2 {
        locks := locks - {entries[e].path};
      }
      entries := entries - {e};
      assert entries == old(entries[e := entries[e].(step := Closing)]) - {e};
    }
  }

  // ---- Safety, with every drop in two steps ----

  /** Lock objects are never shared between paths. */
  ghost predicate MapIsSafe(s: State) {
    && (forall p | p in s.locks :: s.locks[p] < s.next)
    && (forall p, q | p in s.locks && q in s.locks && s.locks[p] == s.locks[q] :: p == q)
  }

  ghost predicate EntryIsSafe(s: State, entry: Entry) {
    && entry.lock < s.next
    && (forall p | p in s.locks && s.locks[p] == entry.lock :: p == entry.path)
    && (entry.Live() ==> entry.path in s.locks && s.locks[entry.path] == entry.lock)
  }

  ghost predicate HoldersAreAlone(s: State) {
    forall e, f | e in s.entries && f in s.entries && s.entries[e].step.Holding? && s.entries[f].step.Holding?
      && s.entries[e].lock == s.entries[f].lock :: e == f
  }

  ghost predicate Safe(s: State) {
    && MapIsSafe(s)
    && (forall e | e in s.entries :: EntryIsSafe(s, s.entries[e]))
    && HoldersAreAlone(s)
  }

  lemma Singleton<T>(s: set<T>, x: T)
    requires x in s && |s| == 1
    ensures s == {x}
  {
    assert |s - {x}| == 0;
  }

  /** Two references to a live entry's lock are the map's and the entry's own. */
  lemma CountOfTwoIsTheLast(s: State, e: EntryId)
    requires Safe(s) && e in s.entries && s.entries[e].step.Released? && StrongCount(s, s.entries[e].lock) == 2
    ensures Entries(s, s.entries[e].lock) == {e}
    ensures forall f | f in s.entries && f != e && s.entries[f].Live() :: s.entries[f].path != s.entries[e].path
  {
    var entry := s.entries[e];
    assert EntryIsSafe(s, entry);
    assert entry.path in InMap(s, entry.lock) && e in Entries(s, entry.lock);
    assert |InMap(s, entry.lock)| >= 1 && |Entries(s, entry.lock)| >= 1;
    Singleton(Entries(s, entry.lock), e);
    forall f | f in s.entries && f != e && s.entries[f].Live() ensures s.entries[f].path != entry.path {
      assert EntryIsSafe(s, s.entries[f]);
      assert f !in Entries(s, entry.lock);
    }
  }

  lemma SafeEnter(s: State, e: EntryId, path: Text)
    requires Safe(s) && e !in s.entries
    ensures Safe(Apply(s, Enter(e, path)))
  {
    var t := Apply(s, Enter(e, path));
    forall f | f in t.entries ensures EntryIsSafe(t, t.entries[f]) {
      assert f != e ==> EntryIsSafe(s, s.entries[f]);
    }
  }

  lemma SafeTo(s: State, e: EntryId, step: Step)
    requires Safe(s) && e in s.entries && s.entries[e].Live()
    requires step.Holding? ==> !IsHeld(s, s.entries[e].lock)
    ensures Safe(To(s, e, step))
  {
  }

  lemma SafeWithoutPath(s: State, e: EntryId)
    requires Safe(s) && e in s.entries && s.entries[e].step.Released? && StrongCount(s, s.entries[e].lock) == 2
    ensures Safe(To(s.(locks := s.locks - {s.entries[e].path}), e, Closing))
  {
    CountOfTwoIsTheLast(s, e);
    var t := To(s.(locks := s.locks - {s.entries[e].path}), e, Closing);
    forall f | f in t.entries ensures EntryIsSafe(t, t.entries[f]) {
      assert EntryIsSafe(s, s.entries[f]);
    }
  }

  lemma SafeForget(s: State, e: EntryId)
    requires Safe(s) && e in s.entries
    ensures Safe(s.(entries := s.entries - {e}))
  {
  }

  lemma SafeStep(s: State, ev: Event)
    requires Safe(s) && Enabled(s, ev)
    ensures Safe(Apply(s, ev))
  {
    match ev
    case Enter(e, path) => SafeEnter(s, e, path);
    case Queue(e) => SafeTo(s, e, Queued);
    case Grant(e) => SafeTo(s, e, Holding);
    case Release(e) => SafeTo(s, e, Released);
    case GiveUp(e) => SafeTo(s, e, Released);
    case Close(e) =>
      if StrongCount(s, s.entries[e].lock) == 2 {
        SafeWithoutPath(s, e);
      } else {
        SafeTo(s, e, Closing);
      }
    case Forget(e) => SafeForget(s, e);
  }

  ghost predicate IsRun(states: seq<State>, events: seq<Event>) {
    && |states| == |events| + 1
    && states[0] == State(map[], map[], 0)
    && forall i | 0 <= i < |events| :: Enabled(states[i], events[i]) && states[i + 1] == Apply(states[i], events[i])
  }

  lemma {:induction false} SafeAlways(states: seq<State>, events: seq<Event>, i: nat)
    requires IsRun(states, events) && i < |states|
    ensures Safe(states[i])
  {
    if i > 0 {
      SafeAlways(states, events, i - 1);
      SafeStep(states[i - 1], events[i - 1]);
    }
  }

  /**
   * In every interleaving of locking, granting, giving up and dropping, all live entries for a
   * path share the lock object the map holds for it, so a path never has two holders.
   */
  lemma OneHolderPerPath(states: seq<State>, events: seq<Event>, i: nat, e: EntryId, f: EntryId)
    requires IsRun(states, events) && i < |states|
    requires e in states[i].entries && f in states[i].entries
    requires states[i].entries[e].Live() && states[i].entries[f].Live() && states[i].entries[e].path == states[i].entries[f].path
    ensures states[i].entries[e].path in states[i].locks
    ensures states[i].entries[e].lock == states[i].entries[f].lock == states[i].locks[states[i].entries[e].path]
    ensures states[i].entries[e].step.Holding? && states[i].entries[f].step.Holding? ==> e == f
  {
    SafeAlways(states, events, i);
    assert EntryIsSafe(states[i], states[i].entries[e]) && EntryIsSafe(states[i], states[i].entries[f]);
  }

  /** Nobody waits for ever: a queued entry is granted the lock, or another entry of its path holds it and can let go. */
  lemma WaitersGoOn(states: seq<State>, events: seq<Event>, i: nat, e: EntryId)
    requires IsRun(states, events) && i < |states|
    requires e in states[i].entries && states[i].entries[e].step.Queued?
    ensures var s := states[i];
      || Enabled(s, Grant(e))
      || exists f | f in s.entries :: s.entries[f].path == s.entries[e].path && s.entries[f].step.Holding? && Enabled(s, Release(f))
  {
    var s := states[i];
    SafeAlways(states, events, i);
    assert EntryIsSafe(s, s.entries[e]);
    if IsHeld(s, s.entries[e].lock) {
      var f :| f in s.entries && s.entries[f].lock == s.entries[e].lock && s.entries[f].step.Holding?;
      assert EntryIsSafe(s, s.entries[f]);
      assert Enabled(s, Release(f));
    }
  }

  // ---- Nothing is left behind, with every drop in one step ----

  predicate Dropping(s: State) {
    exists e | e in s.entries :: s.entries[e].step.Closing?
  }

  /** Whether each drop runs to its end before anything else happens. */
  ghost predicate DropsAreAtomic(states: seq<State>, events: seq<Event>)
    requires |states| == |events| + 1
  {
    forall i | 0 <= i < |events| :: Dropping(states[i]) ==> events[i].Forget?
  }

  predicate HasLiveEntry(s: State, path: Text) {
    exists e | e in s.entries :: s.entries[e].Live() && s.entries[e].path == path
  }

  /** No path is kept in the map for nobody. */
  ghost predicate Tidy(s: State) {
    forall p | p in s.locks :: HasLiveEntry(s, p)
  }

  /** A leaving entry takes its path out of the map exactly when no other entry refers to the same lock any more. */
  lemma CloseKeepsPathIff(s: State, e: EntryId)
    requires Safe(s) && Enabled(s, Close(e))
    ensures s.entries[e].path in Apply(s, Close(e)).locks <==> exists f :: f in s.entries && f != e && s.entries[f].lock == s.entries[e].lock
  {
    var entry := s.entries[e];
    var mine := Entries(s, entry.lock);
    assert EntryIsSafe(s, entry);
    assert InMap(s, entry.lock) == {entry.path} && e in mine;
    assert WithSecond(s, entry.lock) <= mine - {e};
    SubsetSize(WithSecond(s, entry.lock), mine - {e});
    assert |mine - {e}| == |mine| - 1;
    if StrongCount(s, entry.lock) == 2 {
      CountOfTwoIsTheLast(s, e);
      assert forall f | f in s.entries && s.entries[f].lock == entry.lock :: f in mine;
    } else {
      assert mine - {e} != {};
      var f :| f in mine && f != e;
      assert s.entries[f].lock == entry.lock;
    }
  }

  /**
   * So the path stays behind for nobody exactly when the other entries that still refer to its lock are all in the
   * middle of their own drops.
   */
  lemma PathLeftBehindIff(s: State, e: EntryId)
    requires Safe(s) && Enabled(s, Close(e))
    ensures var t, path := Apply(s, Close(e)), s.entries[e].path;
      path in t.locks && !HasLiveEntry(t, path)
      <==>
      && (exists f :: f in s.entries && f != e && s.entries[f].lock == s.entries[e].lock)
      && (forall f | f in s.entries && f != e && s.entries[f].lock == s.entries[e].lock :: s.entries[f].step.Closing?)
  {
    var t, path := Apply(s, Close(e)), s.entries[e].path;
    CloseKeepsPathIff(s, e);
    assert EntryIsSafe(s, s.entries[e]);
    assert forall f | f in s.entries && f != e :: f in t.entries && t.entries[f] == s.entries[f];
    if path in t.locks && HasLiveEntry(t, path) {
      var f :| f in t.entries && t.entries[f].Live() && t.entries[f].path == path;
      assert f != e && EntryIsSafe(s, s.entries[f]);
    }
    forall f | f in s.entries && f != e && s.entries[f].lock == s.entries[e].lock && !s.entries[f].step.Closing? ensures HasLiveEntry(t, path) {
      assert EntryIsSafe(s, s.entries[f]);
      assert t.entries[f].Live() && t.entries[f].path == path;
    }
  }

  /** When nobody is in the middle of a drop, the count tells a leaving entry whether others stay. */
  lemma CountSeesOthers(s: State, e: EntryId)
    requires Safe(s) && e in s.entries && s.entries[e].step.Released? && !Dropping(s)
    requires StrongCount(s, s.entries[e].lock) != 2
    ensures exists f | f in s.entries :: f != e && s.entries[f].Live() && s.entries[f].path == s.entries[e].path
  {
    assert EntryIsSafe(s, s.entries[e]);
    CloseKeepsPathIff(s, e);
    var f :| f in s.entries && f != e && s.entries[f].lock == s.entries[e].lock;
    assert EntryIsSafe(s, s.entries[f]) && s.entries[f].Live();
  }

  lemma TidyStep(s: State, ev: Event)
    requires Safe(s) && Tidy(s) && Enabled(s, ev)
    requires Dropping(s) ==> ev.Forget?
    ensures Tidy(Apply(s, ev))
  {
    var t := Apply(s, ev);
    forall p | p in t.locks ensures HasLiveEntry(t, p) {
      if ev.Enter? && p == ev.path {
        assert t.entries[ev.e].Live() && t.entries[ev.e].path == p;
      } else {
        assert HasLiveEntry(s, p);
        var e :| e in s.entries && s.entries[e].Live() && s.entries[e].path == p;
        if ev.Close? && e == ev.e {
          CountSeesOthers(s, e);
          e :| e in s.entries && e != ev.e && s.entries[e].Live() && s.entries[e].path == p;
        }
        StaysLive(s, ev, e);
      }
    }
  }

  lemma StaysLive(s: State, ev: Event, e: EntryId)
    requires Enabled(s, ev) && e in s.entries && s.entries[e].Live() && (ev.Close? ==> ev.e != e)
    ensures var t := Apply(s, ev); e in t.entries && t.entries[e].Live() && t.entries[e].path == s.entries[e].path
  {
  }

  lemma {:induction false} TidyAlways(states: seq<State>, events: seq<Event>, i: nat)
    requires IsRun(states, events) && DropsAreAtomic(states, events) && i < |states|
    ensures Tidy(states[i])
  {
    if i > 0 {
      TidyAlways(states, events, i - 1);
      SafeAlways(states, events, i - 1);
      TidyStep(states[i - 1], events[i - 1]);
    }
  }

  /** When drops are atomic, a path is in the map exactly while an entry for it is alive. */
  lemma MapHoldsContendedPathsOnly(states: seq<State>, events: seq<Event>, i: nat, path: Text)
    requires IsRun(states, events) && DropsAreAtomic(states, events) && i < |states|
    ensures path in states[i].locks <==> HasLiveEntry(states[i], path)
  {
    TidyAlways(states, events, i);
    SafeAlways(states, events, i);
    if HasLiveEntry(states[i], path) {
      var e :| e in states[i].entries && states[i].entries[e].Live() && states[i].entries[e].path == path;
      assert EntryIsSafe(states[i], states[i].entries[e]);
    }
  }

  // ---- What overlapping drops do ----

  /** A path is in the map and nobody has anything to do with it. */
  ghost predicate LeftBehind(s: State, path: Text) {
    path in s.locks && forall e | e in s.entries :: s.entries[e].path != path
  }

  /**
   * Drops must be atomic for that. When a holder and a waiter that gives up leave together, each may count the
   * other's reference as a reason to keep the path, which then stays in the map with nobody to remove it.
   */
  lemma OverlappingDropsLeaveThePath(path: Text)
    ensures exists states: seq<State>, events: seq<Event> :: IsRun(states, events) && LeftBehind(states[|events|], path)
  {
    var states, events := OverlapStates(path), OverlapEvents(path);
    forall i | 0 <= i < |events| ensures Enabled(states[i], events[i]) && states[i + 1] == Apply(states[i], events[i]) {
      if i < 7 {
        OverlapMeet(path, i);
      } else if i < 9 {
        OverlapClose(path, i);
      } else {
        OverlapForget(path, i);
      }
    }
    assert IsRun(states, events) && LeftBehind(states[|events|], path);
  }

  /** A path left behind stays until somebody locks it again, whatever happens to other paths. */
  lemma {:induction false} LeftBehindStays(states: seq<State>, events: seq<Event>, path: Text, i: nat, j: nat)
    requires IsRun(states, events) && i <= j < |states| && LeftBehind(states[i], path)
    requires forall k | i <= k < j :: !(events[k].Enter? && events[k].path == path)
    ensures LeftBehind(states[j], path)
  {
    if i < j {
      LeftBehindStays(states, events, path, i, j - 1);
    }
  }

  /** And the next one to lock it takes it away again, if alone. */
  lemma NextEntryTidies(s: State, e: EntryId, path: Text)
    requires Safe(s) && LeftBehind(s, path) && e !in s.entries
    ensures var entered := Apply(s, Enter(e, path));
      && Enabled(entered, Queue(e))
      && var queued := Apply(entered, Queue(e));
      && Enabled(queued, Grant(e))
      && var released := Apply(Apply(queued, Grant(e)), Release(e));
      && Enabled(released, Close(e))
      && path !in Apply(released, Close(e)).locks
  {
    var entered := Apply(s, Enter(e, path));
    var queued := Apply(entered, Queue(e));
    var held := Apply(queued, Grant(e));
    var released := Apply(held, Release(e));
    assert forall f | f in s.entries :: EntryIsSafe(s, s.entries[f]) && s.entries[f].lock != s.locks[path];
    SafeStep(s, Enter(e, path));
    SafeStep(entered, Queue(e));
    SafeStep(queued, Grant(e));
    SafeStep(held, Release(e));
    assert forall f | f in released.entries && f != e :: f in s.entries && released.entries[f] == s.entries[f];
    CloseKeepsPathIff(released, e);
  }

  function Both(path: Text, a: Step, b: Step): State {
    State(map[path := 0], map[1 := Entry(path, 0, a), 2 := Entry(path, 0, b)], 1)
  }

  function One(path: Text, e: EntryId, a: Step): State {
    State(map[path := 0], map[e := Entry(path, 0, a)], 1)
  }

  function OverlapStates(path: Text): seq<State> {
    [ State(map[], map[], 0),
      One(path, 1, Entered), One(path, 1, Queued), One(path, 1, Holding),
      Both(path, Holding, Entered), Both(path, Holding, Queued),
      Both(path, Released, Queued), Both(path, Released, Released),
      Both(path, Closing, Released), Both(path, Closing, Closing),
      One(path, 2, Closing),
      State(map[path := 0], map[], 1) ]
  }

  function OverlapEvents(path: Text): seq<Event> {
    [ Enter(1, path), Queue(1), Grant(1), Enter(2, path), Queue(2), Release(1), GiveUp(2),
      Close(1), Close(2), Forget(1), Forget(2) ]
  }

  lemma OverlapMeet(path: Text, i: nat)
    requires i < 7
    ensures Enabled(OverlapStates(path)[i], OverlapEvents(path)[i])
    ensures OverlapStates(path)[i + 1] == Apply(OverlapStates(path)[i], OverlapEvents(path)[i])
  {
  }

  lemma OverlapClose(path: Text, i: nat)
    requires 7 <= i < 9
    ensures Enabled(OverlapStates(path)[i], OverlapEvents(path)[i])
    ensures OverlapStates(path)[i + 1] == Apply(OverlapStates(path)[i], OverlapEvents(path)[i])
  {
    BothCounted(OverlapStates(path)[i], path);
  }

  lemma OverlapForget(path: Text, i: nat)
    requires 9 <= i < 11
    ensures Enabled(OverlapStates(path)[i], OverlapEvents(path)[i])
    ensures OverlapStates(path)[i + 1] == Apply(OverlapStates(path)[i], OverlapEvents(path)[i])
  {
    assert OverlapStates(path)[i].entries - {i - 8} == OverlapStates(path)[i + 1].entries;
  }

  lemma BothCounted(s: State, path: Text)
    requires s.locks == map[path := 0] && s.entries.Keys == {1, 2} && s.entries[1].lock == 0 && s.entries[2].lock == 0
    ensures StrongCount(s, 0) >= 3
  {
    assert InMap(s, 0) == {path};
    assert Entries(s, 0) == {1, 2};
  }
}
