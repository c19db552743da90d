/** The broadcast history: the records `emitMcpMessage` builds and the
    bounded, newest-first list it keeps them in (js/app.js:97-106). */
module History {

  /** How many records the history keeps (the `.slice(0, 50)` in js/app.js:106). */
  const Capacity: nat := 50

  /** What a caller hands to `emitMcpMessage`: every call site passes
      `{ role, text }`. */
  datatype Payload = Payload(role: string, text: string)

  /** The two values read from the clock when a record is built:
      `Date.now()` as the id and the ISO form of the current time. */
  datatype Stamp = Stamp(id: int, timestamp: string)

  /** `{ id, timestamp, ...payload }`: the payload's fields after the stamp's. */
  datatype Record = Record(id: int, timestamp: string, role: string, text: string)

  function MakeRecord(stamp: Stamp, p: Payload): (r: Record)
    ensures r.id == stamp.id && r.timestamp == stamp.timestamp
    ensures Payload(r.role, r.text) == p
  {
    Record(stamp.id, stamp.timestamp, p.role, p.text)
  }

  function Min(a: int, b: int): int {
    if a <= b then a else b
  }

  /** `[record].concat(history).slice(0, 50)`: the new record goes in front
      and whatever lies beyond the capacity falls off the end. */
  function Push(history: seq<Record>, r: Record): (h: seq<Record>)
    ensures 1 <= |h| <= Capacity
    ensures |h| == Min(|history| + 1, Capacity)
    ensures h[0] == r
    ensures h[1..] == history[..|h| - 1]
  {
    ([r] + history)[..Min(|history| + 1, Capacity)]
  }

  /** Pushes the records of `rs` one after another, `rs[0]` first. */
  function PushAll(history: seq<Record>, rs: seq<Record>): seq<Record>
    decreases |rs|
  {
    if |rs| == 0 then history else PushAll(Push(history, rs[0]), rs[1..])
  }

  function Reverse<T>(s: seq<T>): (r: seq<T>)
    ensures |r| == |s|
    ensures forall k :: 0 <= k < |s| ==> r[k] == s[|s| - 1 - k]
  {
    if |s| == 0 then [] else Reverse(s[1..]) + [s[0]]
  }

  /** The reference definition of a history: everything ever pushed,
      newest first, cut to the capacity. */
  function Newest(history: seq<Record>, rs: seq<Record>): seq<Record> {
    var all := Reverse(rs) + history;
    all[..Min(|all|, Capacity)]
  }

  /** Cutting a tail before a longer cut makes no difference. */
  lemma TakeOfShortenedTail<T>(a: seq<T>, b: seq<T>, k: nat, n: nat)
    requires k <= |b| && n <= |a| + k
    ensures (a + b[..k])[..n] == (a + b)[..n]
  {
    assert forall j :: 0 <= j < n ==> (a + b[..k])[j] == (a + b)[j];
  }

  /** Any run of pushes leaves exactly the `Capacity` newest records,
      newest first: the incremental ring agrees with the reference. */
  lemma {:induction false} PushAllIsNewest(history: seq<Record>, rs: seq<Record>)
    requires |history| <= Capacity
    ensures PushAll(history, rs) == Newest(history, rs)
    decreases |rs|
  {
    if |rs| > 0 {
      var h1 := Push(history, rs[0]);
      PushAllIsNewest(h1, rs[1..]);
      var a := Reverse(rs[1..]);
      var k := |h1|;
      assert h1 == ([rs[0]] + history)[..k];
      assert Reverse(rs) == a + [rs[0]];
      assert a + ([rs[0]] + history) == Reverse(rs) + history;
      TakeOfShortenedTail(a, [rs[0]] + history, k, Min(|a| + k, Capacity));
    }
  }

  /** From an empty history, after `N` pushes the history holds
      `min(N, Capacity)` records and position `k` holds the record pushed
      `k` pushes before the last. */
  lemma HistoryAfterPushes(rs: seq<Record>)
    ensures |PushAll([], rs)| == Min(|rs|, Capacity)
    ensures forall k :: 0 <= k < |PushAll([], rs)| ==> PushAll([], rs)[k] == rs[|rs| - 1 - k]
  {
    PushAllIsNewest([], rs);
    assert Reverse(rs) + [] == Reverse(rs);
  }

  /** At capacity a push evicts exactly the oldest record and keeps the
      others in place, one position further back. */
  lemma PushAtCapacityEvictsOldest(history: seq<Record>, r: Record)
    requires |history| == Capacity
    ensures Push(history, r) == [r] + history[..Capacity - 1]
  {
  }
}
