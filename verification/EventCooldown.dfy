/** How often an event goes out, and the list of recent events. */
module EventCooldown {
  import opened Common

  datatype Kind = VolumeSpike | PriceSurge | PriceDrop | StopLoss | TakeProfit

  datatype EventKey = EventKey(symbol: string, kind: Kind)

  const COOLDOWN := 60.0
  const MAX_RECENT := 40

  /** An attempt to send an event, at some time in seconds. */
  datatype Attempt = Attempt(key: EventKey, at: real)

  /** An entry of the list of recent events; the payload is left to the reader of the list. */
  datatype Entry = Entry(key: EventKey, score: int)

  class Gate {
    var last: map<EventKey, real>
    var recent: seq<Entry>

    constructor ()
      ensures last == map[] && recent == []
    {
      last, recent := map[], [];
    }

    method ShouldDedup(key: EventKey, now: real) returns (dedup: bool)
      modifies this`last
      ensures dedup == Suppressed(old(last), Attempt(key, now))
      ensures last == After(old(last), Attempt(key, now))
    {
      if key in last && now - last[key] < COOLDOWN { return true; }
      last := last[key := now];
      return false;
    }

    /** The newest entry first, one per symbol and kind, at most 40. */
    method RecordRecent(e: Entry)
      modifies this`recent
      ensures recent == WithEntry(old(recent), e)
    {
      var kept, i := [], 0;
      while i < |recent|
        invariant 0 <= i <= |recent| && kept == Without(recent[..i], e.key)
      {
        assert recent[..i + 1][..i] == recent[..i];
        if recent[i].key != e.key { kept := kept + [recent[i]]; }
        i := i + 1;
      }
      assert recent[..i] == recent;
      recent := [e] + kept;
      recent := if |recent| > MAX_RECENT then recent[..MAX_RECENT] else recent;
    }
  }

  // ----- The cooldown

  predicate Suppressed(last: map<EventKey, real>, a: Attempt) {
    a.key in last && a.at - last[a.key] < COOLDOWN
  }

  function After(last: map<EventKey, real>, a: Attempt): map<EventKey, real> {
    if Suppressed(last, a) then last else last[a.key := a.at]
  }

  function LastAfter(attempts: seq<Attempt>): map<EventKey, real> {
    if attempts == [] then map[] else After(LastAfter(attempts[..|attempts| - 1]), attempts[|attempts| - 1])
  }

  /** Attempt `j` of a run goes out. */
  predicate Sent(attempts: seq<Attempt>, j: nat)
    requires j < |attempts|
  {
    !Suppressed(LastAfter(attempts[..j]), attempts[j])
  }

  predicate SentFor(attempts: seq<Attempt>, i: nat, key: EventKey) {
    i < |attempts| && attempts[i].key == key && Sent(attempts, i)
  }

  /** The map knows the last attempt that was sent for the key, which is the latest in time too. */
  lemma {:induction false} LastSent(attempts: seq<Attempt>, key: EventKey) returns (i: nat)
    ensures var last := LastAfter(attempts);
            if key in last then SentFor(attempts, i, key) && attempts[i].at == last[key]
            else forall j: nat :: !SentFor(attempts, j, key)
    ensures forall j: nat :: SentFor(attempts, j, key) ==> attempts[j].at <= LastAfter(attempts)[key]
  {
    i := 0;
    if attempts != [] {
      var n := |attempts| - 1;
      var init := attempts[..n];
      i := LastSent(init, key);
      forall j: nat | j < n ensures SentFor(attempts, j, key) <==> SentFor(init, j, key) {
        assert init[..j] == attempts[..j];
      }
      if attempts[n].key == key && Sent(attempts, n) {
        assert SentFor(attempts, n, key);
        i := n;
      }
    }
  }

  /** An event goes out exactly when every earlier one of its symbol and kind that went out is at
      least 60 seconds back. No assumption about the clock is needed. */
  lemma SentIff(attempts: seq<Attempt>, j: nat)
    requires j < |attempts|
    ensures Sent(attempts, j) <==>
              forall i: nat :: i < j && SentFor(attempts, i, attempts[j].key)
                       ==> attempts[j].at - attempts[i].at >= 60.0
  {
    var before, key := attempts[..j], attempts[j].key;
    var last := LastSent(before, key);
    forall i: nat | i < j ensures SentFor(attempts, i, key) <==> SentFor(before, i, key) {
      assert before[..i] == attempts[..i];
    }
    if key in LastAfter(before) {
      assert SentFor(attempts, last, key);
    }
  }

  // ----- Recent events

  function Without(entries: seq<Entry>, key: EventKey): seq<Entry> {
    if entries == [] then []
    else
      var rest := Without(entries[..|entries| - 1], key);
      if entries[|entries| - 1].key != key then rest + [entries[|entries| - 1]] else rest
  }

  function WithEntry(entries: seq<Entry>, e: Entry): seq<Entry> {
    var all := [e] + Without(entries, e.key);
    if |all| > MAX_RECENT then all[..MAX_RECENT] else all
  }

  function Recorded(es: seq<Entry>): seq<Entry> {
    if es == [] then [] else WithEntry(Recorded(es[..|es| - 1]), es[|es| - 1])
  }

  predicate OnePerKey(entries: seq<Entry>) {
    |entries| <= MAX_RECENT && forall i, j :: 0 <= i < j < |entries| ==> entries[i].key != entries[j].key
  }

  lemma {:induction false} WithoutKeeps(entries: seq<Entry>, key: EventKey)
    requires forall i, j :: 0 <= i < j < |entries| ==> entries[i].key != entries[j].key
    ensures var r := Without(entries, key);
            && (forall i, j :: 0 <= i < j < |r| ==> r[i].key != r[j].key)
            && (forall e :: e in r <==> e in entries && e.key != key)
  {
    if entries == [] {
    } else {
      var init, e := entries[..|entries| - 1], entries[|entries| - 1];
      WithoutKeeps(init, key);
      forall x ensures x in entries <==> x in init || x == e {
        assert entries == init + [e];
      }
      assert forall x :: x in init ==> x.key != e.key;
    }
  }

  lemma WithEntryKeeps(before: seq<Entry>, e: Entry)
    requires OnePerKey(before)
    ensures OnePerKey(WithEntry(before, e)) && WithEntry(before, e) != [] && WithEntry(before, e)[0] == e
  {
    var rest := Without(before, e.key);
    WithoutKeeps(before, e.key);
    forall i | 0 <= i < |rest| ensures rest[i].key != e.key { assert rest[i] in rest; }
  }

  /** After any run: one entry per symbol and kind, at most 40, the newest first. */
  lemma {:induction false} RecentOnePerKey(es: seq<Entry>)
    ensures OnePerKey(Recorded(es)) && (es != [] ==> Recorded(es) != [] && Recorded(es)[0] == es[|es| - 1])
  {
    if es == [] {
    } else {
      RecentOnePerKey(es[..|es| - 1]);
      WithEntryKeeps(Recorded(es[..|es| - 1]), es[|es| - 1]);
    }
  }

  /** Event `k` of a run is the last of its symbol and kind. */
  predicate LastOfKey(es: seq<Entry>, k: nat)
    requires k < |es|
  {
    forall i :: k < i < |es| ==> es[i].key != es[k].key
  }

  /** The list shows the events `ids`, each of them the last one of its key. */
  ghost predicate Listed(list: seq<Entry>, es: seq<Entry>, ids: seq<nat>) {
    && |list| == |ids| <= 40
    && forall i :: 0 <= i < |ids| ==> ids[i] < |es| && list[i] == es[ids[i]] && LastOfKey(es, ids[i])
  }

  predicate NewestFirst(ids: seq<nat>) { forall i, j :: 0 <= i < j < |ids| ==> ids[j] < ids[i] }

  /** The last event of every key is among `ids`, unless forty newer ones are. */
  ghost predicate Complete(es: seq<Entry>, ids: seq<nat>) {
    forall k: nat :: k < |es| && LastOfKey(es, k) ==> k in ids || (|ids| == 40 && k < ids[39])
  }

  /** The place of the key in the list, if it has one. */
  lemma {:induction false} WithoutIs(entries: seq<Entry>, key: EventKey) returns (p: nat)
    requires forall i, j :: 0 <= i < j < |entries| ==> entries[i].key != entries[j].key
    ensures p <= |entries| && forall i :: 0 <= i < |entries| && i != p ==> entries[i].key != key
    ensures Without(entries, key) == Dropped(entries, p)
    ensures p < |entries| ==> entries[p].key == key
  {
    p := 0;
    if entries != [] {
      var n := |entries| - 1;
      var init := entries[..n];
      p := WithoutIs(init, key);
      DroppedLonger(init, entries[n], p);
      assert entries == init + [entries[n]];
      if p == n && entries[n].key != key { p := n + 1; }
    }
  }

  /** Without the element at `p`, if there is one. */
  function Dropped<T>(ts: seq<T>, p: nat): seq<T> { if p < |ts| then ts[..p] + ts[p + 1..] else ts }

  lemma {:induction false} DroppedLonger<T>(init: seq<T>, e: T, p: nat)
    requires p <= |init|
    ensures Dropped(init + [e], p) == if p < |init| then Dropped(init, p) + [e] else init
  {
  }

  /** The list of recent events is determined by the run: the last event of each symbol and kind, newest
      first, the forty newest of them. */
  lemma {:induction false} RecentIs(es: seq<Entry>) returns (ids: seq<nat>)
    ensures Listed(Recorded(es), es, ids) && NewestFirst(ids) && Complete(es, ids)
  {
    ids := [];
    if es != [] {
      var n := |es| - 1;
      var init := es[..n];
      var before := RecentIs(init);
      RecentOnePerKey(init);
      var p := WithoutIs(Recorded(init), es[n].key);
      ids := NextIds(n, before, p);
      ListedNext(es, Recorded(init), before, p);
      NewestNext(n, before, p);
      forall k: nat | k < |es| && LastOfKey(es, k) ensures k in ids || (|ids| == 40 && k < ids[39]) {
        CompleteNext(es, before, p, k);
      }
    }
  }

  /** The events shown after event `n`, which takes the place `p` of its key. */
  function NextIds(n: nat, ids: seq<nat>, p: nat): seq<nat> { Cut([n] + Dropped(ids, p)) }

  function Cut<T>(ts: seq<T>): seq<T> { if |ts| > 40 then ts[..40] else ts }

  /** Where the element at `i` of the new list stood before. */
  function Before(i: nat, p: nat): nat
    requires i > 0
  {
    if i - 1 < p then i - 1 else i
  }

  lemma {:induction false} NextAt<T>(t: T, ts: seq<T>, p: nat, i: nat)
    requires 0 < i < |Cut([t] + Dropped(ts, p))|
    ensures Before(i, p) < |ts| && Cut([t] + Dropped(ts, p))[i] == ts[Before(i, p)]
  {
    assert Cut([t] + Dropped(ts, p))[i] == Dropped(ts, p)[i - 1];
  }

  lemma {:induction false} ListedNext(es: seq<Entry>, list: seq<Entry>, ids: seq<nat>, p: nat)
    requires es != [] && Listed(list, es[..|es| - 1], ids)
    requires forall i :: 0 <= i < |list| && i != p ==> list[i].key != es[|es| - 1].key
    requires Without(list, es[|es| - 1].key) == Dropped(list, p)
    ensures Listed(WithEntry(list, es[|es| - 1]), es, NextIds(|es| - 1, ids, p))
  {
    var n, next := |es| - 1, NextIds(|es| - 1, ids, p);
    var now := WithEntry(list, es[n]);
    assert now == Cut([es[n]] + Dropped(list, p));
    forall i | 0 <= i < |next|
      ensures next[i] < |es| && now[i] == es[next[i]] && LastOfKey(es, next[i])
    {
      if i > 0 {
        NextAt(n, ids, p, i);
        NextAt(es[n], list, p, i);
        StillLast(es, ids[Before(i, p)]);
      }
    }
  }

  lemma StillLast(es: seq<Entry>, k: nat)
    requires k + 1 < |es| && LastOfKey(es[..|es| - 1], k) && es[k].key != es[|es| - 1].key
    ensures LastOfKey(es, k)
  {
    assert forall i :: k < i < |es| - 1 ==> es[..|es| - 1][i] == es[i];
  }

  lemma {:induction false} NewestNext(n: nat, ids: seq<nat>, p: nat)
    requires NewestFirst(ids) && forall i :: 0 <= i < |ids| ==> ids[i] < n
    ensures NewestFirst(NextIds(n, ids, p))
  {
    var next := NextIds(n, ids, p);
    forall i, j | 0 <= i < j < |next| ensures next[j] < next[i] {
      NextAt(n, ids, p, j);
      if i > 0 { NextAt(n, ids, p, i); }
    }
  }

  /** The last event of a key stays shown, or forty newer ones are. */
  lemma {:induction false} CompleteNext(es: seq<Entry>, ids: seq<nat>, p: nat, k: nat)
    requires es != [] && k < |es| && LastOfKey(es, k) && |ids| <= 40 && p <= |ids| && NewestFirst(ids)
    requires Complete(es[..|es| - 1], ids)
    requires forall i :: 0 <= i < |ids| ==> ids[i] < |es| - 1
    requires p < |ids| ==> es[ids[p]].key == es[|es| - 1].key
    ensures var next := NextIds(|es| - 1, ids, p); k in next || (|next| == 40 && k < next[39])
  {
    var n, next := |es| - 1, NextIds(|es| - 1, ids, p);
    if k == n {
      assert next[0] == n;
    } else {
      assert LastOfKey(es[..n], k) && es[k].key != es[n].key;
      if q: int :| 0 <= q < |ids| && ids[q] == k {
        var at := if q < p then q + 1 else q;
        assert at < |next| ==> next[at] == k;
      }
    }
  }
}
