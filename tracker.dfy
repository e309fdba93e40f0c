/**
 * HeimdallTracklist (monitor.py): a dictionary from heimdall id to its
 * time stamps, the "missing for more than 60 seconds" predicate, and the
 * in-place stamping of missing entries. Times are seconds, passed in as
 * `now` where the source reads the clock.
 */
module Tracker {
  import opened Wrappers
  import opened Parsers
  import opened Alerts

  /** MISSING_THRESHOLD, in seconds. */
  const MissingThreshold: real := 60.0

  /** One tracked heimdall: the entry dictionary's four keys. */
  datatype Entry = Entry(id: Value, tsAdded: real, tsLastSeen: real, tsReportedMissing: real)

  /** The entry `add` stores: added now, never seen, never reported. */
  function FreshEntry(id: Value, now: real): Entry
  {
    Entry(id, now, 0.0, 0.0)
  }

  function Max(a: real, b: real): real
  {
    if a >= b then a else b
  }

  /** An entry is missing once more than 60 seconds passed since it was added or last seen. */
  predicate IsMissing(e: Entry, now: real)
  {
    now - Max(e.tsAdded, e.tsLastSeen) > MissingThreshold
  }

  /** The tracker's dictionary: its entries and the order in which their keys were inserted. */
  datatype Ledger = Ledger(order: seq<Value>, entries: map<Value, Entry>)

  const Empty: Ledger := Ledger([], map[])

  /**
   * Every key is listed in `order` and nothing else is, as many times as
   * there are keys (so each exactly once), and each entry is filed under
   * its own id.
   */
  ghost predicate WellFormed(l: Ledger)
  {
    && |l.order| == |l.entries|
    && (forall id :: id in l.entries <==> id in l.order)
    && (forall id :: id in l.entries ==> l.entries[id].id == id)
  }

  /**
   * `add`: the id now maps to a fresh entry (re-adding overwrites), no
   * other entry changes, and keys already present keep their place.
   */
  function Inserted(l: Ledger, id: Value, now: real): (r: Ledger)
    ensures WellFormed(l) ==> WellFormed(r)
    ensures r.entries.Keys == l.entries.Keys + {id}
    ensures r.entries[id] == FreshEntry(id, now)
    ensures forall k :: k in l.entries && k != id ==> r.entries[k] == l.entries[k]
    ensures |l.order| <= |r.order| && r.order[..|l.order|] == l.order
  {
    Ledger(if id in l.entries then l.order else l.order + [id], l.entries[id := FreshEntry(id, now)])
  }

  /** The constructor's loop: `add` for each id in turn. */
  function InsertedAll(l: Ledger, ids: seq<Value>, now: real): (r: Ledger)
    ensures WellFormed(l) ==> WellFormed(r)
    decreases |ids|
  {
    if ids == [] then l else InsertedAll(Inserted(l, ids[0], now), ids[1..], now)
  }

  /** One turn of the constructor's loop. */
  lemma InsertedAllStep(l: Ledger, ids: seq<Value>, j: nat, now: real)
    requires j < |ids|
    ensures InsertedAll(l, ids[j..], now) == InsertedAll(Inserted(l, ids[j], now), ids[j + 1..], now)
  {
    assert ids[j..][0] == ids[j] && ids[j..][1..] == ids[j + 1..];
  }

  /** What one `add` does to one id. */
  lemma InsertedAt(l: Ledger, x: Value, now: real, id: Value)
    ensures id in Inserted(l, x, now).entries <==> id in l.entries || id == x
    ensures id == x ==> Inserted(l, x, now).entries[id] == FreshEntry(id, now)
    ensures id in l.entries && id != x ==> Inserted(l, x, now).entries[id] == l.entries[id]
  {
  }

  lemma InHeadOrTail<T>(s: seq<T>, x: T)
    requires s != []
    ensures x in s <==> x == s[0] || x in s[1..]
  {
    assert s == [s[0]] + s[1..];
  }

  /**
   * A tracker built from `ids` at time `now` holds exactly those ids
   * (the entries of `l` aside), each with a fresh entry.
   */
  lemma {:induction false} InsertedAllHolds(l: Ledger, ids: seq<Value>, now: real, id: Value)
    ensures id in InsertedAll(l, ids, now).entries <==> id in l.entries || id in ids
    ensures id in ids ==> InsertedAll(l, ids, now).entries[id] == FreshEntry(id, now)
    ensures id in l.entries && id !in ids ==> InsertedAll(l, ids, now).entries[id] == l.entries[id]
    decreases |ids|
  {
    if ids != [] {
      var l' := Inserted(l, ids[0], now);
      assert InsertedAll(l, ids, now) == InsertedAll(l', ids[1..], now);
      InsertedAllHolds(l', ids[1..], now, id);
      InsertedAt(l, ids[0], now, id);
      InHeadOrTail(ids, id);
    }
  }

  /**
   * The ids of the missing entries, in insertion order: what the filter in
   * `find_missing` selects.
   */
  function MissingAmong(order: seq<Value>, entries: map<Value, Entry>, now: real): (ids: seq<Value>)
    ensures forall k :: 0 <= k < |ids| ==> ids[k] in entries
    decreases |order|
  {
    if order == [] then []
    else
      var last := order[|order| - 1];
      MissingAmong(order[..|order| - 1], entries, now) + (if last in entries && IsMissing(entries[last], now) then [last] else [])
  }

  /** The ids `find_missing` should hand back: the missing entries, in insertion order. */
  function MissingIds(l: Ledger, now: real): (ids: seq<Value>)
  {
    MissingAmong(l.order, l.entries, now)
  }

  /** An id is reported missing exactly when it is listed and its entry is missing. */
  lemma {:induction false} MissingAmongIff(order: seq<Value>, entries: map<Value, Entry>, now: real, id: Value)
    requires forall k :: 0 <= k < |order| ==> order[k] in entries
    ensures id in MissingAmong(order, entries, now) <==> id in order && IsMissing(entries[id], now)
    decreases |order|
  {
    if order != [] {
      var front := order[..|order| - 1];
      MissingAmongIff(front, entries, now, id);
      assert order == front + [order[|order| - 1]];
    }
  }

  lemma MissingIdsIff(l: Ledger, now: real, id: Value)
    requires WellFormed(l)
    ensures id in MissingIds(l, now) <==> id in l.entries && IsMissing(l.entries[id], now)
  {
    MissingAmongIff(l.order, l.entries, now, id);
  }

  /**
   * One entry through the stamping loop of `find_missing`:
   * `ts_reported_missing` becomes `now` exactly when the entry is missing,
   * and no other field changes.
   */
  function StampEntry(e: Entry, now: real): (r: Entry)
    ensures r.id == e.id && r.tsAdded == e.tsAdded && r.tsLastSeen == e.tsLastSeen
    ensures r.tsReportedMissing == if IsMissing(e, now) then now else e.tsReportedMissing
  {
    if IsMissing(e, now) then e.(tsReportedMissing := now) else e
  }

  /** The stamping loop itself, entry by entry along `order`. */
  function StampAlong(order: seq<Value>, m: map<Value, Entry>, now: real): (r: map<Value, Entry>)
    ensures r.Keys == m.Keys
    decreases |order|
  {
    if order == [] then m
    else
      var r := StampAlong(order[..|order| - 1], m, now);
      var id := order[|order| - 1];
      if id in r && IsMissing(r[id], now) then r[id := r[id].(tsReportedMissing := now)] else r
  }

  /** The loop stamps each entry it visits, once however often it visits it, and no other. */
  lemma {:induction false} StampAlongEach(order: seq<Value>, m: map<Value, Entry>, now: real)
    ensures forall id :: id in m ==>
      StampAlong(order, m, now)[id] == if id in order then StampEntry(m[id], now) else m[id]
    decreases |order|
  {
    if order != [] {
      var front := order[..|order| - 1];
      StampAlongEach(front, m, now);
      assert order == front + [order[|order| - 1]];
    }
  }

  /** One more turn of the stamping loop, and of the filter it consumes. */
  lemma StampAlongStep(ids: seq<Value>, j: nat, h: map<Value, Entry>, now: real)
    requires j < |ids|
    ensures var m := StampAlong(ids[..j], h, now);
      var hit := ids[j] in m && IsMissing(m[ids[j]], now);
      && (ids[j] in m <==> ids[j] in h)
      && StampAlong(ids[..j + 1], h, now)
        == (if hit then m[ids[j] := m[ids[j]].(tsReportedMissing := now)] else m)
      && MissingAmong(ids[..j + 1], h, now)
        == MissingAmong(ids[..j], h, now) + (if hit then [ids[j]] else [])
  {
    assert ids[..j + 1][..j] == ids[..j];
    StampAlongEach(ids[..j], h, now);
  }

  /** The tracker after `find_missing` stamped it. */
  function Stamped(l: Ledger, now: real): (r: Ledger)
    ensures r.order == l.order && r.entries.Keys == l.entries.Keys
  {
    Ledger(l.order, StampAlong(l.order, l.entries, now))
  }

  /**
   * Stamping a well-formed tracker stamps exactly its missing entries,
   * leaves every other entry alone and keeps it well-formed.
   */
  lemma StampedEntries(l: Ledger, now: real)
    requires WellFormed(l)
    ensures WellFormed(Stamped(l, now))
    ensures forall id :: id in l.entries ==> Stamped(l, now).entries[id] == StampEntry(l.entries[id], now)
  {
    StampAlongEach(l.order, l.entries, now);
  }

  /** Lists of ids agree on which are missing when their entries agree on it. */
  lemma {:induction false} MissingAmongAgree(order: seq<Value>, m1: map<Value, Entry>, m2: map<Value, Entry>, t: real)
    requires forall id :: id in order ==> (id in m1 <==> id in m2)
    requires forall id :: id in order && id in m1 ==> IsMissing(m1[id], t) == IsMissing(m2[id], t)
    ensures MissingAmong(order, m1, t) == MissingAmong(order, m2, t)
    decreases |order|
  {
    if order != [] {
      var front := order[..|order| - 1];
      assert forall id :: id in front ==> id in order;
      MissingAmongAgree(front, m1, m2, t);
    }
  }

  /** Stamping does not change which entries are missing, at any time. */
  lemma MissingIdsStamped(l: Ledger, now: real, t: real)
    requires WellFormed(l)
    ensures MissingIds(Stamped(l, now), t) == MissingIds(l, t)
  {
    StampedEntries(l, now);
    MissingAmongAgree(l.order, Stamped(l, now).entries, l.entries, t);
  }

  /** Stamping twice at the same time is stamping once. */
  lemma StampedIdempotent(l: Ledger, now: real)
    requires WellFormed(l)
    ensures Stamped(Stamped(l, now), now) == Stamped(l, now)
  {
    var once := Stamped(l, now);
    StampedEntries(l, now);
    StampedEntries(once, now);
    assert Stamped(once, now).entries == once.entries;
  }

  /**
   * `update_heimdall`: the id is present afterwards (inserted fresh when
   * unknown), last seen now and not reported missing; nothing else changes.
   */
  function Seen(l: Ledger, id: Value, now: real): (r: Ledger)
    ensures WellFormed(l) ==> WellFormed(r)
    ensures r.entries.Keys == l.entries.Keys + {id}
    ensures r.entries[id].tsLastSeen == now && r.entries[id].tsReportedMissing == 0.0
    ensures r.entries[id].tsAdded == if id in l.entries then l.entries[id].tsAdded else now
    ensures forall k :: k in l.entries && k != id ==> r.entries[k] == l.entries[k]
    ensures |l.order| <= |r.order| && r.order[..|l.order|] == l.order
  {
    var base := if id in l.entries then l else Inserted(l, id, now);
    Ledger(base.order, base.entries[id := base.entries[id].(tsReportedMissing := 0.0, tsLastSeen := now)])
  }

  /** The alert `update_heimdall` raises: one, for an id it did not know. */
  function SeenAlerts(l: Ledger, id: Value): seq<Alert>
  {
    if id in l.entries then [] else [UnknownHeimdall(id)]
  }

  /** A heimdall just seen at `t` is not missing at any `t'` up to 60 seconds later. */
  lemma SeenNotMissing(l: Ledger, id: Value, t: real, t': real)
    requires WellFormed(l)
    requires t' - t <= MissingThreshold
    ensures !IsMissing(Seen(l, id, t).entries[id], t')
  {
  }

  /** An id seen at `t` is not among the missing ids of any time up to 60 seconds later. */
  lemma SeenNotReported(l: Ledger, id: Value, t: real, t': real)
    requires WellFormed(l)
    requires t' - t <= MissingThreshold
    ensures id !in MissingIds(Seen(l, id, t), t')
  {
    var r := Seen(l, id, t);
    MissingIdsIff(r, t', id);
  }

  /**
   * The loop of `find_missing` over the entries of `h` listed in `ids`:
   * the stamped entries, and the ids its filter selects.
   */
  method StampLoop(ids: seq<Value>, h: map<Value, Entry>, now: real) returns (m: map<Value, Entry>, missing: seq<Value>)
    ensures m == StampAlong(ids, h, now)
    ensures missing == MissingAmong(ids, h, now)
  {
    m := h;
    missing := [];
    var j := 0;
    while j < |ids|
      invariant 0 <= j <= |ids|
      invariant m == StampAlong(ids[..j], h, now)
      invariant missing == MissingAmong(ids[..j], h, now)
    {
      var id := ids[j];
      StampAlongStep(ids, j, h, now);
      if id in m && IsMissing(m[id], now) {
        m := m[id := m[id].(tsReportedMissing := now)];
        missing := missing + [id];
      }
      j := j + 1;
    }
    assert ids[..|ids|] == ids;
  }

  class Tracklist {
    var lastCheck: real
    var order: seq<Value>
    var heimdalls: map<Value, Entry>

    function State(): Ledger
      reads this
    {
      Ledger(order, heimdalls)
    }

    ghost predicate Valid()
      reads this
    {
      WellFormed(State())
    }

    /** `HeimdallTracklist(ids)`: last check now, and `add` for every id in turn. */
    constructor(ids: seq<Value>, now: real)
      ensures Valid()
      ensures lastCheck == now
      ensures State() == InsertedAll(Empty, ids, now)
    {
      lastCheck := now;
      order := [];
      heimdalls := map[];
      new;
      assert ids[0..] == ids;
      var j := 0;
      while j < |ids|
        invariant 0 <= j <= |ids|
        invariant Valid() && lastCheck == now
        invariant InsertedAll(State(), ids[j..], now) == InsertedAll(Empty, ids, now)
      {
        InsertedAllStep(State(), ids, j, now);
        Add(ids[j], now);
        j := j + 1;
      }
    }

    method Add(id: Value, now: real)
      modifies this
      ensures old(Valid()) ==> Valid()
      ensures State() == Inserted(old(State()), id, now)
      ensures lastCheck == old(lastCheck)
    {
      if id !in heimdalls {
        order := order + [id];
      }
      heimdalls := heimdalls[id := FreshEntry(id, now)];
    }

    /** `get`: the stored entry, or None for an unknown id. */
    method Get(id: Value) returns (e: Option<Entry>)
      ensures e.Some? <==> id in heimdalls
      ensures e.Some? ==> e.value == heimdalls[id]
    {
      if id in heimdalls {
        e := Some(heimdalls[id]);
      } else {
        e := None;
      }
    }

    /**
     * `find_missing`: stamps the missing entries in place and hands back
     * their ids in insertion order (the source hands back a spent iterator
     * instead; see the corrected and as-written checks in Checks).
     */
    method FindMissing(now: real) returns (missing: seq<Value>)
      modifies this
      ensures old(Valid()) ==> Valid()
      ensures State() == Stamped(old(State()), now) && lastCheck == old(lastCheck)
      ensures missing == MissingIds(old(State()), now)
    {
      var m;
      m, missing := StampLoop(order, heimdalls, now);
      heimdalls := m;
      if old(Valid()) {
        StampedEntries(old(State()), now);
      }
    }

    /** `update_heimdall`, raising its alert through `sink`. */
    method UpdateHeimdall(id: Value, now: real, sink: AlertBuffer)
      modifies this, sink
      ensures old(Valid()) ==> Valid()
      ensures State() == Seen(old(State()), id, now)
      ensures sink.entries == old(sink.entries) + SeenAlerts(old(State()), id)
      ensures lastCheck == old(lastCheck)
    {
      if id !in heimdalls {
        sink.Alert(UnknownHeimdall(id));
        Add(id, now);
      }
      heimdalls := heimdalls[id := heimdalls[id].(tsReportedMissing := 0.0, tsLastSeen := now)];
    }

    method UpdateLastCheck(now: real)
      modifies this
      ensures lastCheck == now
      ensures State() == old(State())
    {
      lastCheck := now;
    }
  }
}
