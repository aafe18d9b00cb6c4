/**
 * Native delivery of notifications (apps/desktop/src/main/notification-manager.ts): which
 * ids a refresh shows, and what becomes of the bounded list of delivered ids.
 */
module Notifications {
  import opened Prelude

  const MAX_NATIVE_DELIVERIES_PER_REFRESH: nat := 5
  const MAX_DELIVERED_IDS: nat := 500
  const MAX_ACTIVE_NOTIFICATIONS: nat := 50

  type Id = string

  predicate Unique(ids: seq<Id>) { forall i, j :: 0 <= i < j < |ids| ==> ids[i] != ids[j] }

  /** The newest 500 of a list in order of insertion. */
  function Newest(ids: seq<Id>): seq<Id> {
    if |ids| <= MAX_DELIVERED_IDS then ids else ids[|ids| - MAX_DELIVERED_IDS..]
  }

  /** What one refresh shows when every show succeeds: undelivered ids in order, within its budget. */
  function Shown(active: seq<Id>, delivered: seq<Id>, budget: nat): (shown: seq<Id>)
    ensures |shown| <= budget
    ensures forall id :: id in shown ==> id in active && id !in delivered
    ensures Unique(shown)
  {
    if active == [] then []
    else if active[0] in delivered || budget == 0 then Shown(active[1..], delivered, budget)
    else
      var rest := Shown(active[1..], delivered + [active[0]], budget - 1);
      assert active[0] in delivered + [active[0]];
      assert forall id :: id in delivered ==> id in delivered + [active[0]];
      [active[0]] + rest
  }

  /** The delivered ids after a refresh; they are cut only when something was shown. */
  function Delivered(delivered: seq<Id>, shown: seq<Id>): seq<Id> {
    if shown == [] then delivered else Newest(delivered + shown)
  }

  lemma {:induction false} ShowsWhatIsMissing(active: seq<Id>, delivered: seq<Id>, budget: nat)
    requires Shown(active, delivered, budget) == [] && budget > 0
    ensures forall id :: id in active ==> id in delivered
  {
    if active != [] {
      assert active == [active[0]] + active[1..];
      ShowsWhatIsMissing(active[1..], delivered, budget);
    }
  }

  lemma {:induction false} ShowsNothingDelivered(active: seq<Id>, delivered: seq<Id>, budget: nat)
    requires forall id :: id in active ==> id in delivered
    ensures Shown(active, delivered, budget) == []
  {
    if active != [] {
      assert active[0] in active;
      forall id | id in active[1..] ensures id in delivered { assert id in active; }
      ShowsNothingDelivered(active[1..], delivered, budget);
    }
  }

  // ---------------------------------------------------------------- which are shown

  /** The first of the active notifications that is not done yet. */
  ghost predicate IsNext(active: seq<Id>, done: seq<Id>, id: Id) {
    exists i :: 0 <= i < |active| && active[i] == id && id !in done && forall j :: 0 <= j < i ==> active[j] in done
  }

  predicate AllDone(active: seq<Id>, done: seq<Id>) { forall id :: id in active ==> id in done }

  lemma NextBehindDone(active: seq<Id>, done: seq<Id>, id: Id)
    requires active != [] && active[0] in done
    ensures IsNext(active, done, id) <==> IsNext(active[1..], done, id)
    ensures AllDone(active, done) <==> AllDone(active[1..], done)
  {
    assert active == [active[0]] + active[1..];
    assert AllDone(active, done) <==> AllDone(active[1..], done);
    hide AllDone;
    if IsNext(active, done, id) { NextGoesDown(active, done, id); }
    if IsNext(active[1..], done, id) { NextGoesUp(active, done, id); }
  }

  lemma NextGoesDown(active: seq<Id>, done: seq<Id>, id: Id)
    requires active != [] && active[0] in done && IsNext(active, done, id)
    ensures IsNext(active[1..], done, id)
  {
    var i :| 0 <= i < |active| && active[i] == id && id !in done && forall j :: 0 <= j < i ==> active[j] in done;
    IsNextAt(active[1..], done, i - 1);
  }

  lemma NextGoesUp(active: seq<Id>, done: seq<Id>, id: Id)
    requires active != [] && active[0] in done && IsNext(active[1..], done, id)
    ensures IsNext(active, done, id)
  {
    var rest := active[1..];
    var i :| 0 <= i < |rest| && rest[i] == id && id !in done && forall j :: 0 <= j < i ==> rest[j] in done;
    forall j | 0 <= j < i + 1 ensures active[j] in done { if j > 0 { assert active[j] == rest[j - 1]; } }
    IsNextAt(active, done, i + 1);
  }

  lemma IsNextAt(active: seq<Id>, done: seq<Id>, i: nat)
    requires i < |active| && active[i] !in done && forall j :: 0 <= j < i ==> active[j] in done
    ensures IsNext(active, done, active[i])
  {
  }

  /** Each one shown is the next of those not done, and there are fewer than the budget only when none is left. */
  lemma {:induction false} ShownExactly(active: seq<Id>, delivered: seq<Id>, budget: nat)
    ensures
      var shown := Shown(active, delivered, budget);
      && |shown| <= budget
      && (forall k :: 0 <= k < |shown| ==> IsNext(active, delivered + shown[..k], shown[k]))
      && (|shown| < budget ==> AllDone(active, delivered + shown))
  {
    hide IsNext, AllDone;
    var shown := Shown(active, delivered, budget);
    if active == [] {
      NothingToDo(delivered + shown);
    } else if active[0] in delivered || budget == 0 {
      ShownExactly(active[1..], delivered, budget);
      if budget > 0 {
        forall k | 0 <= k <= |shown|
          ensures k < |shown| ==> IsNext(active, delivered + shown[..k], shown[k])
          ensures AllDone(active, delivered + shown[..k]) <==> AllDone(active[1..], delivered + shown[..k])
        {
          NextBehindDone(active, delivered + shown[..k], if k < |shown| then shown[k] else "");
        }
        assert shown[..|shown|] == shown;
      }
    } else {
      var first, more := active[0], delivered + [active[0]];
      var rest := Shown(active[1..], more, budget - 1);
      ShownExactly(active[1..], more, budget - 1);
      assert shown == [first] + rest;
      FirstIsNext(active, delivered);
      forall k | 0 < k <= |shown|
        ensures k < |shown| ==> IsNext(active, delivered + shown[..k], shown[k])
        ensures delivered + shown[..k] == more + rest[..k - 1]
        ensures AllDone(active, delivered + shown[..k]) <==> AllDone(active[1..], delivered + shown[..k])
      {
        assert shown[..k] == [first] + rest[..k - 1];
        assert delivered + shown[..k] == more + rest[..k - 1];
        assert active[0] in more;
        NextBehindDone(active, delivered + shown[..k], if k < |shown| then shown[k] else "");
      }
      assert shown[..|shown|] == shown && rest[..|rest|] == rest && shown[..0] == [] && delivered + [] == delivered;
    }
  }

  lemma NothingToDo(done: seq<Id>)
    ensures AllDone([], done)
  {
  }

  lemma FirstIsNext(active: seq<Id>, done: seq<Id>)
    requires active != [] && active[0] !in done
    ensures IsNext(active, done, active[0])
  {
  }

  /** The newest 500: all of a list that is no longer, and otherwise its last 500. */
  lemma NewestExactly(ids: seq<Id>)
    ensures |Newest(ids)| == if |ids| <= 500 then |ids| else 500
    ensures Newest(ids) == ids[|ids| - |Newest(ids)|..]
  {
  }

  // ---------------------------------------------------------------- many refreshes of one snapshot

  /** The delivered ids, and all that has been shown, after `n` refreshes of the same active notifications. */
  function After(active: seq<Id>, initial: seq<Id>, n: nat): (seq<Id>, seq<Id>) {
    if n == 0 then (initial, [])
    else
      var (delivered, history) := After(active, initial, n - 1);
      var shown := Shown(active, delivered, MAX_NATIVE_DELIVERIES_PER_REFRESH);
      (Delivered(delivered, shown), history + shown)
  }

  /** Cutting twice is cutting once. */
  lemma NewestTwice(ids: seq<Id>, more: seq<Id>)
    ensures Newest(Newest(ids) + more) == Newest(ids + more)
  {
  }

  /** Unique ids drawn from `pool` are no more than the pool is long, and when as many, they are all of it. */
  lemma {:induction false} UniqueFits(ids: seq<Id>, pool: seq<Id>)
    requires Unique(ids) && forall id :: id in ids ==> id in pool
    ensures |ids| <= |pool|
    ensures |ids| == |pool| ==> forall id :: id in pool ==> id in ids
  {
    if ids != [] {
      var last, rest := ids[|ids| - 1], ids[..|ids| - 1];
      assert last in ids;
      var k :| 0 <= k < |pool| && pool[k] == last;
      var fewer := pool[..k] + pool[k + 1..];
      forall id | id in rest ensures id in fewer {
        var i :| 0 <= i < |rest| && rest[i] == id;
        assert ids[i] != ids[|ids| - 1] && ids[i] in ids;
      }
      UniqueFits(rest, fewer);
      if |ids| == |pool| {
        forall id | id in pool ensures id in ids {
          if id != last { assert id in fewer; assert id in rest; }
        }
      }
    }
  }

  /** What was shown is still among the newest 500, however much older was cut. */
  lemma RecentIsKept(initial: seq<Id>, history: seq<Id>)
    requires |history| <= MAX_DELIVERED_IDS
    ensures forall id :: id in history ==> id in Newest(initial + history)
  {
    var kept := Newest(initial + history);
    forall id | id in history ensures id in kept {
      var i :| 0 <= i < |history| && history[i] == id;
      assert kept[|kept| - |history| + i] == id;
    }
  }

  /** The state after `n` refreshes: each id shown at most once, all of it still recorded. */
  ghost predicate Consistent(active: seq<Id>, initial: seq<Id>, n: nat) {
    var (delivered, history) := After(active, initial, n);
    && Unique(history)
    && (forall id :: id in history ==> id in active)
    && (forall id :: id in history ==> id in delivered)
    && delivered == Newest(initial + history)
  }

  lemma UniqueConcat(history: seq<Id>, shown: seq<Id>)
    requires Unique(history) && Unique(shown) && forall id :: id in shown ==> id !in history
    ensures Unique(history + shown)
  {
    var all := history + shown;
    forall i, j | 0 <= i < j < |all| ensures all[i] != all[j] {
      if i < |history| <= j { assert all[i] in history && all[j] in shown; }
    }
  }

  lemma {:induction false} StaysConsistent(active: seq<Id>, initial: seq<Id>, n: nat)
    requires |active| <= MAX_ACTIVE_NOTIFICATIONS && |initial| <= MAX_DELIVERED_IDS
    ensures Consistent(active, initial, n)
  {
    hide Shown, Unique, Newest;
    if n == 0 {
      NothingShownYet(initial);
    } else {
      StaysConsistent(active, initial, n - 1);
      var (delivered, history) := After(active, initial, n - 1);
      var shown := Shown(active, delivered, MAX_NATIVE_DELIVERIES_PER_REFRESH);
      UniqueConcat(history, shown);
      UniqueFits(history + shown, active);
      RecentIsKept(initial, history + shown);
      NewestTwice(initial + history, shown);
      assert (initial + history) + shown == initial + (history + shown);
      if shown == [] { assert history + shown == history; }
    }
  }

  lemma NothingShownYet(initial: seq<Id>)
    requires |initial| <= MAX_DELIVERED_IDS
    ensures Unique([]) && Newest(initial + []) == initial
  {
    assert initial + [] == initial;
  }

  /** Each active notification is shown at most once more, and at most five in a refresh. */
  lemma ShownAtMostOnce(active: seq<Id>, initial: seq<Id>, n: nat)
    requires |active| <= MAX_ACTIVE_NOTIFICATIONS && |initial| <= MAX_DELIVERED_IDS
    ensures
      var (_, before) := After(active, initial, n);
      var (_, after) := After(active, initial, n + 1);
      && Unique(after) && (forall id :: id in after ==> id in active)
      && before <= after && |after| - |before| <= MAX_NATIVE_DELIVERIES_PER_REFRESH
  {
    StaysConsistent(active, initial, n + 1);
  }

  /** Until everything active is delivered, each refresh shows something. */
  lemma {:induction false} EachRefreshAdvances(active: seq<Id>, initial: seq<Id>, n: nat)
    requires |active| <= MAX_ACTIVE_NOTIFICATIONS && |initial| <= MAX_DELIVERED_IDS
    ensures
      var (delivered, history) := After(active, initial, n);
      |history| >= n || forall id :: id in active ==> id in delivered
  {
    hide Shown;
    if n > 0 {
      EachRefreshAdvances(active, initial, n - 1);
      var (delivered, history) := After(active, initial, n - 1);
      if Shown(active, delivered, MAX_NATIVE_DELIVERIES_PER_REFRESH) == [] {
        ShowsWhatIsMissing(active, delivered, MAX_NATIVE_DELIVERIES_PER_REFRESH);
      } else if |history| < n - 1 {
        ShowsNothingDelivered(active, delivered, MAX_NATIVE_DELIVERIES_PER_REFRESH);
      }
    }
  }

  /** After as many refreshes as there are active notifications all are delivered, and nothing more is shown. */
  lemma AllDeliveredInTime(active: seq<Id>, initial: seq<Id>, n: nat)
    requires |active| <= MAX_ACTIVE_NOTIFICATIONS && |initial| <= MAX_DELIVERED_IDS && n >= |active|
    ensures
      var (delivered, history) := After(active, initial, n);
      && (forall id :: id in active ==> id in delivered)
      && Shown(active, delivered, MAX_NATIVE_DELIVERIES_PER_REFRESH) == []
      && After(active, initial, n + 1) == (delivered, history)
  {
    hide Shown, Newest, Unique;
    StaysConsistent(active, initial, n);
    EachRefreshAdvances(active, initial, n);
    var (delivered, history) := After(active, initial, n);
    UniqueFits(history, active);
    forall id | id in active ensures id in delivered {
      if |history| >= n { assert id in history; }
    }
    ShowsNothingDelivered(active, delivered, MAX_NATIVE_DELIVERIES_PER_REFRESH);
    assert history + [] == history;
  }

  lemma Uncut(initial: seq<Id>, history: seq<Id>, shown: seq<Id>)
    requires |initial| + |history + shown| <= 500
    ensures Delivered(initial + history, shown) == initial + (history + shown)
  {
    assert (initial + history) + shown == initial + (history + shown);
  }

  lemma DoneStaysDone(active: seq<Id>, delivered: seq<Id>, shown: seq<Id>)
    requires AllDone(active, delivered)
    ensures AllDone(active, delivered + shown)
  {
  }

  /** While no delivered id has to be cut, each refresh shows five more until everything active is delivered. */
  lemma {:induction false} EachRefreshFills(active: seq<Id>, initial: seq<Id>, n: nat)
    requires |active| <= MAX_ACTIVE_NOTIFICATIONS && |initial| + |active| <= 500
    ensures
      var (delivered, history) := After(active, initial, n);
      delivered == initial + history && (|history| == 5 * n || AllDone(active, delivered))
  {
    hide Shown, AllDone, Unique, Newest, Delivered;
    if n == 0 {
      assert initial + [] == initial;
    } else {
      var (delivered, history) := After(active, initial, n - 1);
      var shown := Shown(active, delivered, MAX_NATIVE_DELIVERIES_PER_REFRESH);
      EachRefreshFills(active, initial, n - 1);
      HistoryFits(active, initial, n);
      Uncut(initial, history, shown);
      assert delivered + shown == initial + (history + shown);
      ShownExactly(active, delivered, 5);
      if AllDone(active, delivered) { DoneStaysDone(active, delivered, shown); }
    }
  }

  lemma HistoryFits(active: seq<Id>, initial: seq<Id>, n: nat)
    requires |active| <= MAX_ACTIVE_NOTIFICATIONS && |initial| <= MAX_DELIVERED_IDS
    ensures |After(active, initial, n).1| <= |active|
  {
    hide Unique;
    StaysConsistent(active, initial, n);
    UniqueFits(After(active, initial, n).1, active);
  }

  /** As long as no delivered id has to be cut, one refresh for every five notifications is enough. */
  lemma FivePerRefresh(active: seq<Id>, initial: seq<Id>, n: nat)
    requires |active| <= MAX_ACTIVE_NOTIFICATIONS && |initial| + |active| <= 500 && 5 * n >= |active|
    ensures forall id :: id in active ==> id in After(active, initial, n).0
  {
    hide Shown, Newest, Unique;
    StaysConsistent(active, initial, n);
    EachRefreshFills(active, initial, n);
    var (delivered, history) := After(active, initial, n);
    UniqueFits(history, active);
    forall id | id in active ensures id in delivered {
      if |history| == 5 * n { assert id in history; }
    }
  }

  // ---------------------------------------------------------------- the manager

  /** The part of the reported status this model follows; `failed` stands for an error text. */
  datatype Status = Status(nativeEnabled: bool, active: seq<Id>, deliveredCount: nat, failed: bool)

  /** What a refresh meets: the collected notifications if they load, which shows throw, and whether saving works. */
  datatype Surroundings = Surroundings(active: Option<seq<Id>>, supported: bool, throws: set<Id>, saves: bool)

  /** The ids shown before one throws, and whether one did. */
  function ShownUntil(active: seq<Id>, delivered: seq<Id>, budget: nat, throws: set<Id>): (shown: (seq<Id>, bool))
    ensures throws == {} ==> shown == (Shown(active, delivered, budget), false)
  {
    if active == [] then ([], false)
    else if active[0] in delivered || budget == 0 then ShownUntil(active[1..], delivered, budget, throws)
    else if active[0] in throws then ([], true)
    else
      var (rest, threw) := ShownUntil(active[1..], delivered + [active[0]], budget - 1, throws);
      ([active[0]] + rest, threw)
  }

  /**
   * A refresh shows what it would if no show threw, up to the first that does; it fails exactly
   * when there is one.
   */
  lemma {:induction false} UntilExactly(active: seq<Id>, delivered: seq<Id>, budget: nat, throws: set<Id>)
    ensures
      var (shows, threw) := ShownUntil(active, delivered, budget, throws);
      var all := Shown(active, delivered, budget);
      && shows <= all && (forall id :: id in shows ==> id !in throws)
      && (threw <==> shows != all) && (threw ==> all[|shows|] in throws)
  {
    if active == [] {
    } else if active[0] in delivered || budget == 0 {
      UntilExactly(active[1..], delivered, budget, throws);
    } else if active[0] !in throws {
      UntilExactly(active[1..], delivered + [active[0]], budget - 1, throws);
    }
  }

  /** What one refresh of the collected notifications shows, and where it ends. */
  lemma RefreshShows(s: Surroundings, delivered: seq<Id>)
    requires s.active.Some?
    ensures
      var active, shows := s.active.value, ShownUntil(s.active.value, delivered, MAX_NATIVE_DELIVERIES_PER_REFRESH, s.throws).0;
      && |shows| <= 5
      && (forall k :: 0 <= k < |shows| ==> shows[k] !in s.throws && IsNext(active, delivered + shows[..k], shows[k]))
      && (|shows| == 5 || AllDone(active, delivered + shows)
          || exists id :: id in s.throws && IsNext(active, delivered + shows, id))
  {
    hide Shown, ShownUntil, IsNext, AllDone;
    var active := s.active.value;
    var all := Shown(active, delivered, 5);
    var (shows, threw) := ShownUntil(active, delivered, 5, s.throws);
    ShownExactly(active, delivered, 5);
    UntilExactly(active, delivered, 5, s.throws);
    forall k | 0 <= k <= |shows| ensures all[..k] == shows[..k] {}
    assert shows[..|shows|] == shows;
    if threw { assert IsNext(active, delivered + shows, all[|shows|]); }
  }

  class NotificationManager {
    var deliveredIds: seq<Id>
    var current: Status
    var stored: seq<Id>

    constructor (persisted: seq<Id>, nativeEnabled: bool)
      requires Unique(persisted)
      ensures Valid() && deliveredIds == persisted && current.nativeEnabled == nativeEnabled
    {
      deliveredIds, stored := persisted, persisted;
      current := Status(nativeEnabled, [], 0, false);
    }

    /** The delivered ids are a set in order of insertion. */
    ghost predicate Valid()
      reads this
    {
      Unique(deliveredIds)
    }

    method Persist(saves: bool) returns (ok: bool)
      requires Valid()
      modifies this`deliveredIds, this`stored
      ensures Valid() && deliveredIds == Newest(old(deliveredIds)) && ok == saves
      ensures stored == if saves then deliveredIds else old(stored)
    {
      if |deliveredIds| > MAX_DELIVERED_IDS { deliveredIds := deliveredIds[|deliveredIds| - MAX_DELIVERED_IDS..]; }
      if !saves { return false; }
      stored := deliveredIds;
      return true;
    }

    /** The delivery loop; it stops where a show throws. */
    method Deliver(active: seq<Id>, throws: set<Id>) returns (shown: seq<Id>, threw: bool)
      requires Valid()
      modifies this`deliveredIds
      ensures Valid() && deliveredIds == old(deliveredIds) + shown
      ensures (shown, threw) == ShownUntil(active, old(deliveredIds), MAX_NATIVE_DELIVERIES_PER_REFRESH, throws)
    {
      var delivered := 0;
      shown := [];
      var i := 0;
      assert deliveredIds + [] == deliveredIds && active[0..] == active;
      FurtherNothing(ShownUntil(active, deliveredIds, MAX_NATIVE_DELIVERIES_PER_REFRESH, throws));
      while i < |active|
        invariant 0 <= i <= |active| && 0 <= delivered <= MAX_NATIVE_DELIVERIES_PER_REFRESH
        invariant Valid() && deliveredIds == old(deliveredIds) + shown
        invariant ShownUntil(active, old(deliveredIds), MAX_NATIVE_DELIVERIES_PER_REFRESH, throws) ==
                  Further(shown, ShownUntil(active[i..], deliveredIds, MAX_NATIVE_DELIVERIES_PER_REFRESH - delivered, throws))
      {
        var id := active[i];
        assert active[i..][1..] == active[i + 1..];
        i := i + 1;
        if id in deliveredIds || delivered >= MAX_NATIVE_DELIVERIES_PER_REFRESH { continue; }
        if id in throws { assert shown + [] == shown; return shown, true; }
        FurtherOneMore(shown, id, ShownUntil(active[i..], deliveredIds + [id], MAX_NATIVE_DELIVERIES_PER_REFRESH - delivered - 1, throws));
        assert (old(deliveredIds) + shown) + [id] == old(deliveredIds) + (shown + [id]);
        deliveredIds := deliveredIds + [id];
        shown := shown + [id];
        delivered := delivered + 1;
      }
      assert shown + [] == shown;
      return shown, false;
    }

    /** One refresh; when it cannot load, show or save, only the error is reported. */
    method PerformRefresh(s: Surroundings) returns (shown: seq<Id>)
      requires Valid()
      modifies this
      ensures Valid()
      ensures s.active == None || !s.supported || !old(current).nativeEnabled ==> shown == [] && deliveredIds == old(deliveredIds)
      ensures s.active.Some? && s.supported && old(current).nativeEnabled ==>
        var (shows, threw) := ShownUntil(s.active.value, old(deliveredIds), MAX_NATIVE_DELIVERIES_PER_REFRESH, s.throws);
        && shown == shows
        && deliveredIds == (if threw then old(deliveredIds) + shows else Delivered(old(deliveredIds), shows))
        && (current.failed <==> threw || (shows != [] && !s.saves))
        && (!current.failed && shows != [] ==> stored == deliveredIds)
      ensures shown == [] ==> deliveredIds == old(deliveredIds) && stored == old(stored)
      // The same without naming what is shown: the next ones, five at most, up to the first that throws.
      ensures |shown| <= 5 && forall k :: 0 <= k < |shown| ==>
        s.active.Some? && shown[k] !in s.throws && IsNext(s.active.value, old(deliveredIds) + shown[..k], shown[k])
      ensures s.active.Some? && s.supported && old(current).nativeEnabled ==>
        || |shown| == 5 || AllDone(s.active.value, old(deliveredIds) + shown)
        || (exists id :: id in s.throws && IsNext(s.active.value, old(deliveredIds) + shown, id))
      ensures current.failed ==> current == old(current).(failed := true)
      ensures !current.failed ==>
        s.active.Some? && current == Status(old(current).nativeEnabled, s.active.value, |deliveredIds|, false)
    {
      if s.active.Some? { RefreshShows(s, deliveredIds); }
      hide Shown, ShownUntil, Newest, IsNext, AllDone;
      shown := [];
      if s.active == None { current := current.(failed := true); return; }
      if current.nativeEnabled && s.supported {
        var threw;
        shown, threw := Deliver(s.active.value, s.throws);
        if threw { current := current.(failed := true); return; }
      }
      assert deliveredIds + [] == deliveredIds;
      if |shown| > 0 {
        var saved := Persist(s.saves);
        if !saved { current := current.(failed := true); return; }
      }
      current := current.(active := s.active.value, deliveredCount := |deliveredIds|, failed := false);
    }

    /**
     * Refreshes of the same notifications on end, in which every show succeeds: each is shown
     * at most once, and with as many refreshes as there are notifications all are delivered, or
     * with a fifth of them while no delivered id has to be cut, however often saving fails.
     */
    method RefreshRepeatedly(active: seq<Id>, n: nat, saves: nat -> bool) returns (shown: seq<Id>)
      requires Valid() && current.nativeEnabled
      requires |active| <= MAX_ACTIVE_NOTIFICATIONS && |deliveredIds| <= MAX_DELIVERED_IDS
      modifies this
      ensures Valid() && current.nativeEnabled
      ensures (deliveredIds, shown) == After(active, old(deliveredIds), n)
      ensures Unique(shown) && forall id :: id in shown ==> id in active && id in deliveredIds
      ensures n >= |active| || (|old(deliveredIds)| + |active| <= 500 && 5 * n >= |active|) ==>
        forall id :: id in active ==> id in deliveredIds
    {
      hide Shown, ShownUntil, Newest;
      shown := [];
      for k := 0 to n
        invariant Valid() && current.nativeEnabled
        invariant (deliveredIds, shown) == After(active, old(deliveredIds), k)
      {
        var more := PerformRefresh(Surroundings(Some(active), true, {}, saves(k)));
        shown := shown + more;
      }
      StaysConsistent(active, old(deliveredIds), n);
      if n >= |active| {
        AllDeliveredInTime(active, old(deliveredIds), n);
      } else if |old(deliveredIds)| + |active| <= 500 && 5 * n >= |active| {
        FivePerRefresh(active, old(deliveredIds), n);
      }
    }
  }

  /** What was shown in front of what is shown further on. */
  function Further(done: seq<Id>, rest: (seq<Id>, bool)): (seq<Id>, bool) { (done + rest.0, rest.1) }

  lemma FurtherNothing(rest: (seq<Id>, bool))
    ensures Further([], rest) == rest
  {
    assert [] + rest.0 == rest.0;
  }

  lemma FurtherOneMore(done: seq<Id>, id: Id, rest: (seq<Id>, bool))
    ensures Further(done + [id], rest) == Further(done, ([id] + rest.0, rest.1))
  {
    assert (done + [id]) + rest.0 == done + ([id] + rest.0);
  }
}
