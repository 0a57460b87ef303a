/**
 * The "newest first, bounded" list that the header notifications and the
 * activity feed keep: each insert event is put in front and the list is cut
 * to a fixed number of entries, as `[item, ...prev].slice(0, cap)` does.
 */
module NewestFirst {

  function Min(a: nat, b: nat): nat {
    if a < b then a else b
  }

  /** `[x, ...s].slice(0, cap)`. */
  function PrependCapped<T>(x: T, s: seq<T>, cap: nat): (r: seq<T>)
    ensures |r| == Min(cap, |s| + 1)
    ensures |r| > 0 ==> r[0] == x
    ensures forall i | 1 <= i < |r| :: r[i] == s[i - 1]
  {
    ([x] + s)[..Min(cap, |s| + 1)]
  }

  function Reverse<T>(s: seq<T>): (r: seq<T>)
    ensures |r| == |s|
    ensures forall i | 0 <= i < |s| :: r[i] == s[|s| - 1 - i]
  {
    if s == [] then [] else Reverse(s[1..]) + [s[0]]
  }

  /** The list after the insert events `events`, oldest event first, have been
      applied to `initial` one at a time. */
  function AfterEvents<T>(initial: seq<T>, events: seq<T>, cap: nat): seq<T>
    decreases |events|
  {
    if events == [] then initial
    else PrependCapped(events[|events| - 1], AfterEvents(initial, events[..|events| - 1], cap), cap)
  }

  /** After at least one event, the list holds the newest `cap` items of
      "every event, newest first, then the initial list". */
  lemma {:induction false} AfterEventsIsNewestPrefix<T>(initial: seq<T>, events: seq<T>, cap: nat)
    requires events != []
    ensures AfterEvents(initial, events, cap)
         == (Reverse(events) + initial)[..Min(cap, |events| + |initial|)]
    decreases |events|
  {
    var n := |events|;
    var last := events[n - 1];
    var before := events[..n - 1];
    var all := Reverse(events) + initial;
    assert Reverse(events) == [last] + Reverse(before);
    if before == [] {
      assert AfterEvents(initial, before, cap) == initial;
    } else {
      AfterEventsIsNewestPrefix(initial, before, cap);
      var prev := AfterEvents(initial, before, cap);
      var r := PrependCapped(last, prev, cap);
      var k := Min(cap, n + |initial|);
      assert |r| == k;
      forall i | 0 <= i < k ensures r[i] == all[i] {
        if i > 0 {
          assert r[i] == prev[i - 1];
          assert prev[i - 1] == (Reverse(before) + initial)[i - 1];
          assert all == [last] + (Reverse(before) + initial);
        }
      }
    }
  }
}
