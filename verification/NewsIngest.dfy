/** Ingesting a batch of news items: what is created, what is a duplicate, what is skipped, and which
    category names of a text are chosen. */
module NewsIngest {
  import opened Common
  import opened Symbols

  /** A raw item. `title` has its white space collapsed; an item without a date gets the clock. */
  datatype Raw = Raw(source: string, title: string, externalId: string, url: string, date: Option<int>)

  /** What the dedupe hash is taken of. */
  datatype Identity = Identity(source: string, name: string, at: int)

  datatype Outcome = Created | Duplicate | Skipped

  datatype Counts = Counts(received: nat, created: nat, duplicates: nat, skipped: nat)

  // ----- One item

  function Source(raw: Raw): string { Strip(Upper(raw.source)) }

  /** Items without a source are counted under UNKNOWN. */
  function Label(raw: Raw): string { if Source(raw) == "" then "UNKNOWN" else Source(raw) }

  predicate Usable(raw: Raw) { Source(raw) != "" && Strip(raw.title) != "" }

  function LowerChar(c: char): char { if 'A' <= c <= 'Z' then c - 'A' + 'a' else c }

  function Lower(s: string): string { if s == "" then "" else [LowerChar(s[0])] + Lower(s[1..]) }

  /** External id, else address, else title. */
  function Name(raw: Raw): string {
    if Strip(raw.externalId) != "" then Strip(raw.externalId)
    else if Strip(raw.url) != "" then Strip(raw.url)
    else Lower(Strip(raw.title))
  }

  function IdentityOf(raw: Raw, now: int): Identity {
    Identity(Source(raw), Name(raw), if raw.date.Some? then raw.date.value else now)
  }

  /** An item as the loop sees it: the source it counts under, and its identity unless it is skipped. */
  datatype Entry = Entry(source: string, id: Option<Identity>)

  function Prepare(raw: Raw, now: int): Entry {
    Entry(Label(raw), if Usable(raw) then Some(IdentityOf(raw, now)) else None)
  }

  /** Item `i` of the batch is looked at when the clock says `clock[i]`. */
  function Prepared(items: seq<Raw>, clock: seq<int>): (r: seq<Entry>)
    requires |clock| == |items|
    ensures |r| == |items| && forall i :: 0 <= i < |items| ==> r[i] == Prepare(items[i], clock[i])
  {
    seq(|items|, i requires 0 <= i < |items| == |clock| => Prepare(items[i], clock[i]))
  }

  // ----- A batch

  function OutcomeOf(stored: set<Identity>, e: Entry): Outcome {
    if e.id.None? then Skipped else if e.id.value in stored then Duplicate else Created
  }

  function StoredWith(stored: set<Identity>, e: Entry): set<Identity> {
    if e.id.Some? then stored + {e.id.value} else stored
  }

  function StoredAfter(stored: set<Identity>, batch: seq<Entry>): set<Identity> {
    if batch == [] then stored else StoredWith(StoredAfter(stored, batch[..|batch| - 1]), batch[|batch| - 1])
  }

  function AddOutcome(c: Counts, o: Outcome): Counts {
    match o
    case Created => c.(received := c.received + 1, created := c.created + 1)
    case Duplicate => c.(received := c.received + 1, duplicates := c.duplicates + 1)
    case Skipped => c.(received := c.received + 1, skipped := c.skipped + 1)
  }

  const NONE := Counts(0, 0, 0, 0)

  /** The counts of a batch, of all sources or of one. */
  function CountsOf(stored: set<Identity>, batch: seq<Entry>, source: Option<string>): Counts {
    if batch == [] then NONE
    else
      var init, e := batch[..|batch| - 1], batch[|batch| - 1];
      var before := CountsOf(stored, init, source);
      if source == None || source == Some(e.source) then AddOutcome(before, OutcomeOf(StoredAfter(stored, init), e))
      else before
  }

  class NewsStore {
    var stored: set<Identity>

    constructor ()
      ensures stored == {}
    {
      stored := {};
    }

    /** Looks the item up and creates it, in one session. */
    method Put(e: Entry) returns (outcome: Outcome)
      modifies this
      ensures outcome == OutcomeOf(old(stored), e) && stored == StoredWith(old(stored), e)
    {
      if e.id.None? { return Skipped; }
      if e.id.value in stored { return Duplicate; }
      stored := stored + {e.id.value};
      return Created;
    }

    method Ingest(items: seq<Raw>, clock: seq<int>)
      returns (summary: Counts, sources: map<string, Counts>, created: seq<Identity>)
      requires |clock| == |items|
      modifies this
      ensures stored == StoredAfter(old(stored), Prepared(items, clock))
      ensures summary == CountsOf(old(stored), Prepared(items, clock), None)
      ensures forall s :: (if s in sources then sources[s] else NONE)
                          == CountsOf(old(stored), Prepared(items, clock), Some(s))
      ensures created == CreatedOf(old(stored), Prepared(items, clock))
    {
      summary, sources, created := NONE, map[], [];
      ghost var batch := Prepared(items, clock);
      ghost var before := stored;
      var i := 0;
      while i < |items|
        invariant 0 <= i <= |items| && stored == StoredAfter(before, batch[..i])
        invariant summary == CountsOf(before, batch[..i], None)
        invariant forall s :: (if s in sources then sources[s] else NONE) == CountsOf(before, batch[..i], Some(s))
        invariant created == CreatedOf(before, batch[..i])
      {
        var e := Prepare(items[i], clock[i]);
        NextEntry(before, batch, i);
        var outcome := Put(e);
        summary := AddOutcome(summary, outcome);
        sources := sources[e.source := AddOutcome(if e.source in sources then sources[e.source] else NONE, outcome)];
        if outcome == Created { created := created + [e.id.value]; }
        i := i + 1;
      }
      assert batch[..i] == batch;
    }
  }

  function CreatedOf(stored: set<Identity>, batch: seq<Entry>): seq<Identity> {
    if batch == [] then []
    else
      var init, e := batch[..|batch| - 1], batch[|batch| - 1];
      var rest := CreatedOf(stored, init);
      if OutcomeOf(StoredAfter(stored, init), e) == Created then rest + [e.id.value] else rest
  }

  /** One more entry. */
  lemma NextEntry(stored: set<Identity>, batch: seq<Entry>, i: nat)
    requires i < |batch|
    ensures var now, outcome := batch[..i + 1], OutcomeOf(StoredAfter(stored, batch[..i]), batch[i]);
            && StoredAfter(stored, now) == StoredWith(StoredAfter(stored, batch[..i]), batch[i])
            && CountsOf(stored, now, None) == AddOutcome(CountsOf(stored, batch[..i], None), outcome)
            && CreatedOf(stored, now)
                 == (if outcome == Created then CreatedOf(stored, batch[..i]) + [batch[i].id.value]
                     else CreatedOf(stored, batch[..i]))
            && forall s :: CountsOf(stored, now, Some(s))
                 == if s == batch[i].source then AddOutcome(CountsOf(stored, batch[..i], Some(s)), outcome)
                    else CountsOf(stored, batch[..i], Some(s))
  {
    assert batch[..i + 1][..i] == batch[..i];
  }

  // ----- Counters

  /** Received is created plus duplicates plus skipped, in total and for every source; in total it
      is the length of the batch. */
  lemma {:induction false} CountsAddUp(stored: set<Identity>, batch: seq<Entry>, source: Option<string>)
    ensures var c := CountsOf(stored, batch, source); c.received == c.created + c.duplicates + c.skipped
    ensures CountsOf(stored, batch, source).received == Received(batch, source)
    ensures source == None ==> Received(batch, source) == |batch|
  {
    if batch == [] {
    } else {
      CountsAddUp(stored, batch[..|batch| - 1], source);
    }
  }

  function Received(batch: seq<Entry>, source: Option<string>): nat {
    if batch == [] then 0
    else
      Received(batch[..|batch| - 1], source)
        + if source == None || source == Some(batch[|batch| - 1].source) then 1 else 0
  }

  /** The created items are new, listed once, and as many as the store grew by. */
  lemma {:induction false} CreatedIsGrowth(stored: set<Identity>, batch: seq<Entry>)
    ensures |CreatedOf(stored, batch)| == CountsOf(stored, batch, None).created
    ensures |StoredAfter(stored, batch)| == |stored| + |CreatedOf(stored, batch)|
    ensures forall id :: id in StoredAfter(stored, batch) <==> id in stored || id in CreatedOf(stored, batch)
  {
    if batch == [] {
    } else {
      var init, e := batch[..|batch| - 1], batch[|batch| - 1];
      CreatedIsGrowth(stored, init);
      if e.id.Some? && e.id.value in StoredAfter(stored, init) {
        assert StoredAfter(stored, init) + {e.id.value} == StoredAfter(stored, init);
      }
    }
  }

  /** What was stored stays, and of the batch exactly the usable items are stored. */
  lemma {:induction false} StoredIff(stored: set<Identity>, batch: seq<Entry>, id: Identity)
    ensures id in StoredAfter(stored, batch)
       <==> id in stored || exists i :: 0 <= i < |batch| && batch[i].id == Some(id)
  {
    if batch == [] {
    } else {
      var n := |batch| - 1;
      StoredIff(stored, batch[..n], id);
      if exists i :: 0 <= i < |batch| && batch[i].id == Some(id) {
        var i :| 0 <= i < |batch| && batch[i].id == Some(id);
        assert i < n ==> batch[..n][i].id == Some(id);
      }
    }
  }

  // ----- What the counters count

  /** Entry `i` is usable, was not stored, and is the first of the batch with its identity. */
  predicate IsNew(stored: set<Identity>, batch: seq<Entry>, i: nat) {
    && i < |batch| && batch[i].id.Some? && batch[i].id.value !in stored
    && forall j :: 0 <= j < i ==> batch[j].id != batch[i].id
  }

  /** Entry `i` is usable, and stored before or earlier in the batch. */
  predicate IsRepeated(stored: set<Identity>, batch: seq<Entry>, i: nat) {
    && i < |batch| && batch[i].id.Some?
    && (batch[i].id.value in stored || exists j :: 0 <= j < i && batch[j].id == batch[i].id)
  }

  predicate IsOf(source: Option<string>, batch: seq<Entry>, i: nat) {
    i < |batch| && (source == None || source == Some(batch[i].source))
  }

  /** The places before `n` where `p` holds. */
  ghost function Places(n: nat, p: nat -> bool): set<nat> { set i: nat | i < n && p(i) }

  lemma PlacesNext(n: nat, p: nat -> bool)
    ensures |Places(n + 1, p)| == |Places(n, p)| + if p(n) then 1 else 0
  {
    if p(n) {
      assert Places(n + 1, p) == Places(n, p) + {n};
    } else {
      assert Places(n + 1, p) == Places(n, p);
    }
  }

  /** The counters by their meaning, in total or of one source: received counts the entries, skipped the
      unusable ones, created the first ones of a new identity, duplicates the others. */
  lemma {:induction false} CountsAre(stored: set<Identity>, batch: seq<Entry>, source: Option<string>, n: nat)
    requires n <= |batch|
    ensures var c := CountsOf(stored, batch[..n], source);
            && c.received == |Places(n, (i: nat) => IsOf(source, batch, i))|
            && c.skipped == |Places(n, (i: nat) => IsOf(source, batch, i) && batch[i].id == None)|
            && c.created == |Places(n, (i: nat) => IsOf(source, batch, i) && IsNew(stored, batch, i))|
            && c.duplicates == |Places(n, (i: nat) => IsOf(source, batch, i) && IsRepeated(stored, batch, i))|
  {
    if n == 0 {
    } else {
      var k := n - 1;
      CountsAre(stored, batch, source, k);
      assert batch[..n][..k] == batch[..k];
      PlacesNext(k, (i: nat) => IsOf(source, batch, i));
      PlacesNext(k, (i: nat) => IsOf(source, batch, i) && batch[i].id == None);
      PlacesNext(k, (i: nat) => IsOf(source, batch, i) && IsNew(stored, batch, i));
      PlacesNext(k, (i: nat) => IsOf(source, batch, i) && IsRepeated(stored, batch, i));
      OutcomeIs(stored, batch, k);
    }
  }

  lemma OutcomeIs(stored: set<Identity>, batch: seq<Entry>, i: nat)
    requires i < |batch|
    ensures var o := OutcomeOf(StoredAfter(stored, batch[..i]), batch[i]);
            && (o == Created <==> IsNew(stored, batch, i))
            && (o == Duplicate <==> IsRepeated(stored, batch, i))
            && (o == Skipped <==> batch[i].id == None)
  {
    if batch[i].id.Some? {
      StoredIff(stored, batch[..i], batch[i].id.value);
      assert forall j :: 0 <= j < i ==> batch[..i][j] == batch[j];
    }
  }

  /** The created items in order: the places where an identity is new. */
  lemma {:induction false} CreatedAre(stored: set<Identity>, batch: seq<Entry>, n: nat) returns (places: seq<nat>)
    requires n <= |batch|
    ensures var created := CreatedOf(stored, batch[..n]);
            && |places| == |created|
            && forall i :: 0 <= i < |places| ==> places[i] < n && batch[places[i]].id == Some(created[i])
    ensures forall i, j :: 0 <= i < j < |places| ==> places[i] < places[j]
    ensures forall k: nat :: k in places <==> k < n && IsNew(stored, batch, k)
  {
    places := [];
    if n > 0 {
      var k := n - 1;
      places := CreatedAre(stored, batch, k);
      assert batch[..n][..k] == batch[..k];
      OutcomeIs(stored, batch, k);
      if IsNew(stored, batch, k) { places := places + [k]; }
    }
  }

  // ----- Which items are the same

  /** An item is used exactly when neither its source nor its title is blank; it is then known by its own
      source, and by its own time if it has one. */
  lemma UsableIff(raw: Raw, now: int)
    ensures Prepare(raw, now).id.Some? <==> !Blank(raw.source) && !Blank(raw.title)
    ensures Prepare(raw, now).source == if Blank(raw.source) then "UNKNOWN" else Strip(Upper(raw.source))
    ensures Prepare(raw, now).id.Some? ==>
              var id := Prepare(raw, now).id.value;
              id.source == Strip(Upper(raw.source)) && (raw.date == Some(id.at) || (raw.date == None && id.at == now))
  {
    UpperBlank(raw.source);
    var _, _ := StripIs(Upper(raw.source));
    var _, _ := StripIs(raw.title);
  }

  lemma {:induction false} UpperBlank(s: string)
    ensures Blank(Upper(s)) <==> Blank(s)
  {
    if s == "" {
    } else {
      UpperBlank(s[1..]);
      BlankCons(s[0], s[1..]);
      BlankCons(UpperChar(s[0]), Upper(s[1..]));
      assert s == [s[0]] + s[1..];
    }
  }

  lemma BlankCons(c: char, s: string)
    ensures Blank([c] + s) <==> IsSpace(c) && Blank(s)
  {
    assert ([c] + s)[0] == c;
    assert forall i :: 0 <= i < |s| ==> s[i] == ([c] + s)[i + 1];
    assert forall i :: 0 < i <= |s| ==> s[i - 1] == ([c] + s)[i];
  }

  predicate SameSourceAndTime(a: Raw, b: Raw, now: int, later: int) {
    && Strip(Upper(a.source)) == Strip(Upper(b.source))
    && (match (a.date, b.date)
        case (Some(x), Some(y)) => x == y
        case (Some(x), None) => x == later
        case (None, Some(y)) => now == y
        case (None, None) => now == later)
  }

  /** What tells two items of one source and one time apart: their external ids; without any, their
      addresses, whatever the titles; without both, their titles up to case. */
  lemma SameItemIff(a: Raw, b: Raw, now: int, later: int)
    ensures var same := IdentityOf(a, now) == IdentityOf(b, later);
            var (x, y) := (Blank(a.externalId), Blank(b.externalId));
            && (same ==> SameSourceAndTime(a, b, now, later))
            && (!x && !y && SameSourceAndTime(a, b, now, later)
                ==> (same <==> Strip(a.externalId) == Strip(b.externalId)))
            && (x && y && !Blank(a.url) && !Blank(b.url) && SameSourceAndTime(a, b, now, later)
                ==> (same <==> Strip(a.url) == Strip(b.url)))
            && (x && y && Blank(a.url) && Blank(b.url) && SameSourceAndTime(a, b, now, later)
                ==> (same <==> |Strip(a.title)| == |Strip(b.title)|
                               && forall i :: 0 <= i < |Strip(a.title)|
                                    ==> UpToCase(Strip(a.title)[i], Strip(b.title)[i])))
  {
    var _, _ := StripIs(a.externalId);
    var _, _ := StripIs(b.externalId);
    var _, _ := StripIs(a.url);
    var _, _ := StripIs(b.url);
    LowerIs(Strip(a.title), Strip(b.title));
  }

  predicate UpToCase(c: char, d: char) {
    c == d || ('a' <= c <= 'z' && d as int == c as int - 32) || ('A' <= c <= 'Z' && d as int == c as int + 32)
  }

  lemma {:induction false} LowerIs(s: string, t: string)
    ensures Lower(s) == Lower(t) <==> |s| == |t| && forall i :: 0 <= i < |s| ==> UpToCase(s[i], t[i])
  {
    LowerLength(s);
    LowerLength(t);
    if s == "" || t == "" {
    } else {
      LowerIs(s[1..], t[1..]);
      assert Lower(s)[1..] == Lower(s[1..]) && Lower(t)[1..] == Lower(t[1..]);
      assert Lower(s) == Lower(t) <==> LowerChar(s[0]) == LowerChar(t[0]) && Lower(s[1..]) == Lower(t[1..]);
      if |s| == |t| && UpToCase(s[0], t[0]) && Lower(s[1..]) == Lower(t[1..]) {
        forall i | 0 <= i < |s| ensures UpToCase(s[i], t[i]) {
          assert i > 0 ==> UpToCase(s[1..][i - 1], t[1..][i - 1]);
        }
      }
    }
  }

  lemma {:induction false} LowerLength(s: string)
    ensures |Lower(s)| == |s|
  {
    if s == "" {
    } else {
      LowerLength(s[1..]);
    }
  }

  // ----- The same batch again

  predicate AllDated(items: seq<Raw>) {
    forall i :: 0 <= i < |items| && Usable(items[i]) ==> items[i].date.Some?
  }

  predicate Known(stored: set<Identity>, e: Entry) { e.id.None? || e.id.value in stored }

  /** A batch creates nothing exactly when everything in it is known. */
  lemma {:induction false} NothingCreatedIff(stored: set<Identity>, batch: seq<Entry>)
    ensures CreatedOf(stored, batch) == [] <==> forall i :: 0 <= i < |batch| ==> Known(stored, batch[i])
    ensures CreatedOf(stored, batch) == [] ==> StoredAfter(stored, batch) == stored
  {
    if batch == [] {
    } else {
      var n := |batch| - 1;
      NothingCreatedIff(stored, batch[..n]);
      assert forall i :: 0 <= i < n ==> batch[..n][i] == batch[i];
    }
  }

  /** Later, when nothing stored bears the current time, the same batch creates nothing exactly when
      all its usable items are dated. */
  lemma ReingestIff(stored: set<Identity>, items: seq<Raw>, clock: seq<int>, later: seq<int>)
    requires |clock| == |items| == |later|
    requires forall id, i :: id in StoredAfter(stored, Prepared(items, clock)) && 0 <= i < |later| ==> id.at != later[i]
    ensures CreatedOf(StoredAfter(stored, Prepared(items, clock)), Prepared(items, later)) == [] <==> AllDated(items)
  {
    var first := StoredAfter(stored, Prepared(items, clock));
    forall i | 0 <= i < |items|
      ensures Known(first, Prepared(items, later)[i]) <==> (Usable(items[i]) ==> items[i].date.Some?)
    {
      SameAgainIff(stored, items, clock, later, i);
    }
    NothingCreatedIff(first, Prepared(items, later));
  }

  lemma SameAgainIff(stored: set<Identity>, items: seq<Raw>, clock: seq<int>, later: seq<int>, i: nat)
    requires |clock| == |items| == |later| && i < |items|
    requires forall id :: id in StoredAfter(stored, Prepared(items, clock)) ==> id.at != later[i]
    ensures Known(StoredAfter(stored, Prepared(items, clock)), Prepare(items[i], later[i]))
            <==> (Usable(items[i]) ==> items[i].date.Some?)
  {
    var batch := Prepared(items, clock);
    var e := batch[i];
    if e.id.Some? && items[i].date.Some? {
      assert e == Prepare(items[i], later[i]);
      StoredIff(stored, batch, e.id.value);
    }
  }

  // ----- Category names in a text

  /** A category name found at a position of the text. */
  datatype Match = Match(category: string, start: nat)

  function End(m: Match): nat { m.start + |m.category| }

  predicate Apart(a: Match, b: Match) { End(a) <= b.start || End(b) <= a.start }

  const MAX_CATEGORIES := 3

  predicate Fits(chosen: seq<Match>, m: Match) {
    forall i :: 0 <= i < |chosen| ==> chosen[i].category != m.category && Apart(chosen[i], m)
  }

  /** The matches come by position, longer names first; a name is passed over exactly when three were chosen
      before it, or one chosen before it is the same name or overlaps it. `ids` are the places chosen. */
  method ChooseCategories(matches: seq<Match>) returns (chosen: seq<Match>, ghost ids: seq<nat>)
    ensures |chosen| == |ids| <= 3
    ensures forall i :: 0 <= i < |ids| ==> ids[i] < |matches| && chosen[i] == matches[ids[i]]
    ensures forall i, j :: 0 <= i < j < |ids|
              ==> ids[i] < ids[j] && Apart(chosen[i], chosen[j]) && chosen[i].category != chosen[j].category
    ensures forall k: nat :: k < |matches|
              ==> k in ids || (|ids| == 3 && ids[2] < k) || Blocked(matches, ids, k)
  {
    chosen, ids := [], [];
    var i := 0;
    while i < |matches| && |chosen| < MAX_CATEGORIES
      invariant 0 <= i <= |matches| && |chosen| == |ids| <= MAX_CATEGORIES
      invariant forall k :: 0 <= k < |ids| ==> ids[k] < i && chosen[k] == matches[ids[k]]
      invariant forall k, j :: 0 <= k < j < |chosen|
                  ==> ids[k] < ids[j] && Apart(chosen[k], chosen[j]) && chosen[k].category != chosen[j].category
      invariant forall k: nat :: k < i ==> k in ids || Blocked(matches, ids, k)
    {
      ghost var before := ids;
      if Fits(chosen, matches[i]) {
        chosen, ids := chosen + [matches[i]], ids + [i];
      }
      forall k: nat | k <= i ensures k in ids || Blocked(matches, ids, k) {
        if Blocked(matches, before, k) { StillBlocked(matches, before, ids, k); }
      }
      i := i + 1;
    }
  }

  /** Something chosen before match `k` has its name or overlaps it. */
  predicate Blocked(matches: seq<Match>, ids: seq<nat>, k: nat)
    requires k < |matches| && forall i :: 0 <= i < |ids| ==> ids[i] < |matches|
  {
    exists i :: 0 <= i < |ids| && ids[i] < k
                && (matches[ids[i]].category == matches[k].category || !Apart(matches[ids[i]], matches[k]))
  }

  lemma StillBlocked(matches: seq<Match>, before: seq<nat>, ids: seq<nat>, k: nat)
    requires before <= ids && k < |matches| && forall i :: 0 <= i < |ids| ==> ids[i] < |matches|
    requires Blocked(matches, before, k)
    ensures Blocked(matches, ids, k)
  {
    var i :| 0 <= i < |before| && before[i] < k
             && (matches[before[i]].category == matches[k].category || !Apart(matches[before[i]], matches[k]));
    assert ids[i] == before[i];
  }
}
