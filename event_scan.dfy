/**
 * The backward scan for `LogTake` events that both copies run: one query
 * up to the chain head, then windows that step back `step` blocks at a
 * time, each window's results reversed and appended, until more than
 * `limit` events are held or the scan reaches the floor block.
 */
module EventScan {
  import opened Ledger

  /** The `toBlock` of a query: the string `"latest"` or a block number. */
  datatype BlockTag = Latest | At(number: int)

  /** One `getPastEvents` query: both ends are inclusive. */
  datatype Window = Window(fromBlock: int, toBlock: BlockTag)

  /** `getPastEvents("LogTake", ...)` for the pair's filter, oldest first. */
  type EventsOracle = (int, BlockTag) -> seq<TakeEvent>

  function Reverse<T>(s: seq<T>): (r: seq<T>)
    ensures |r| == |s|
    ensures forall k :: 0 <= k < |s| ==> r[k] == s[|s| - 1 - k]
  {
    if s == [] then [] else Reverse(s[1..]) + [s[0]]
  }

  /** `_getPastEvent`: one window's events, newest first. */
  function PastEvents(oracle: EventsOracle, w: Window): seq<TakeEvent>
  {
    Reverse(oracle(w.fromBlock, w.toBlock))
  }

  /** The events the windows `ws` yield, concatenated in scan order. */
  function Collected(oracle: EventsOracle, ws: seq<Window>): seq<TakeEvent>
  {
    if ws == [] then [] else Collected(oracle, ws[..|ws| - 1]) + PastEvents(oracle, ws[|ws| - 1])
  }

  /** The window after one that began at block `w.fromBlock`. */
  function NextWindow(w: Window, step: int): Window
  {
    Window(Max0(w.fromBlock - step), At(w.fromBlock))
  }

  /**
   * The windows still to come once `have` events are held and the last
   * window began at `toBlock`: another one while at most `limit` events are
   * held and `toBlock` is above the floor.
   */
  function MoreWindows(oracle: EventsOracle, have: nat, toBlock: int, step: int, floor: int, limit: int): seq<Window>
    requires step > 0 && floor >= 0
    decreases if toBlock > 0 then toBlock else 0
  {
    if have <= limit && toBlock > floor then
      var w := Window(Max0(toBlock - step), At(toBlock));
      [w] + MoreWindows(oracle, have + |oracle(w.fromBlock, w.toBlock)|, w.fromBlock, step, floor, limit)
    else []
  }

  /** Every window of a scan that starts with the query `[head, latest]`. */
  function ScanWindows(oracle: EventsOracle, head: nat, step: int, floor: int, limit: int): seq<Window>
    requires step > 0 && floor >= 0
  {
    [Window(head, Latest)] + MoreWindows(oracle, |oracle(head, Latest)|, head, step, floor, limit)
  }

  /** Each window ends where the one before it began, and starts `step` blocks earlier, never below block 0. */
  ghost predicate Chained(ws: seq<Window>, step: int)
  {
    forall k :: 0 < k < |ws| ==> ws[k] == NextWindow(ws[k - 1], step)
  }

  /** The last window of a scan satisfies the loop's exit test. */
  ghost predicate Stopped(oracle: EventsOracle, ws: seq<Window>, floor: int, limit: int)
  {
    ws != [] && (|Collected(oracle, ws)| > limit || ws[|ws| - 1].fromBlock <= floor)
  }

  /** Every window from index `from` on, except the last, passed the loop's test before the next was queried. */
  ghost predicate KeptGoing(oracle: EventsOracle, ws: seq<Window>, from: nat, floor: int, limit: int)
  {
    forall k :: from <= k < |ws| - 1 ==> |Collected(oracle, ws[..k + 1])| <= limit && ws[k].fromBlock > floor
  }

  lemma CollectedAppend(oracle: EventsOracle, ws: seq<Window>, w: Window)
    ensures Collected(oracle, ws + [w]) == Collected(oracle, ws) + PastEvents(oracle, w)
  {
    assert (ws + [w])[..|ws|] == ws;
  }

  lemma {:induction false} MoreWindowsChained(oracle: EventsOracle, have: nat, toBlock: int, step: int, floor: int, limit: int)
    requires step > 0 && floor >= 0
    ensures var m := MoreWindows(oracle, have, toBlock, step, floor, limit);
      && (m != [] ==> m[0] == Window(Max0(toBlock - step), At(toBlock)))
      && Chained(m, step)
    decreases if toBlock > 0 then toBlock else 0
  {
    var m := MoreWindows(oracle, have, toBlock, step, floor, limit);
    if m != [] {
      var w := m[0];
      var have' := have + |oracle(w.fromBlock, w.toBlock)|;
      MoreWindowsChained(oracle, have', w.fromBlock, step, floor, limit);
      assert m == [w] + MoreWindows(oracle, have', w.fromBlock, step, floor, limit);
    }
  }

  /**
   * The windows of a scan: the first is `[head, latest]`, each next one ends
   * at the block where the one before began and starts `step` blocks
   * earlier, and no window starts below block 0.
   */
  lemma ScanWindowsChained(oracle: EventsOracle, head: nat, step: int, floor: int, limit: int)
    requires step > 0 && floor >= 0
    ensures var ws := ScanWindows(oracle, head, step, floor, limit);
      && ws[0] == Window(head, Latest)
      && Chained(ws, step)
      && forall k :: 0 <= k < |ws| ==> ws[k].fromBlock >= 0
  {
    MoreWindowsChained(oracle, |oracle(head, Latest)|, head, step, floor, limit);
    var ws := ScanWindows(oracle, head, step, floor, limit);
    forall k | 0 < k < |ws| ensures ws[k].fromBlock >= 0 {
      assert ws[k] == NextWindow(ws[k - 1], step);
    }
  }

  lemma KeptGoingExtend(oracle: EventsOracle, ws: seq<Window>, prefix: seq<Window>, floor: int, limit: int)
    requires 1 <= |prefix| < |ws| && ws[..|prefix|] == prefix
    requires KeptGoing(oracle, ws, |prefix|, floor, limit)
    requires |Collected(oracle, prefix)| <= limit && prefix[|prefix| - 1].fromBlock > floor
    ensures KeptGoing(oracle, ws, |prefix| - 1, floor, limit)
  {
    forall k | |prefix| - 1 <= k < |ws| - 1
      ensures |Collected(oracle, ws[..k + 1])| <= limit && ws[k].fromBlock > floor
    {
      if k == |prefix| - 1 {
        assert ws[..k + 1] == prefix;
      }
    }
  }

  lemma {:induction false} MoreWindowsStop(oracle: EventsOracle, prefix: seq<Window>, step: int, floor: int, limit: int)
    requires step > 0 && floor >= 0 && prefix != []
    ensures var ws := prefix + MoreWindows(oracle, |Collected(oracle, prefix)|, prefix[|prefix| - 1].fromBlock, step, floor, limit);
      Stopped(oracle, ws, floor, limit) && KeptGoing(oracle, ws, |prefix| - 1, floor, limit)
    decreases if prefix[|prefix| - 1].fromBlock > 0 then prefix[|prefix| - 1].fromBlock else 0
  {
    var toBlock := prefix[|prefix| - 1].fromBlock;
    var have := |Collected(oracle, prefix)|;
    if have <= limit && toBlock > floor {
      var w := Window(Max0(toBlock - step), At(toBlock));
      var prefix' := prefix + [w];
      var m' := MoreWindows(oracle, |Collected(oracle, prefix')|, w.fromBlock, step, floor, limit);
      assert prefix + MoreWindows(oracle, have, toBlock, step, floor, limit) == prefix' + m' by {
        CollectedAppend(oracle, prefix, w);
        assert |Collected(oracle, prefix')| == have + |oracle(w.fromBlock, w.toBlock)|;
        MoreWindowsStep(oracle, have, toBlock, step, floor, limit);
        AppendAssoc(prefix, [w], m');
      }
      MoreWindowsStop(oracle, prefix', step, floor, limit);
      KeptGoingExtend(oracle, prefix' + m', prefix, floor, limit);
    } else {
      assert MoreWindows(oracle, have, toBlock, step, floor, limit) == [];
      assert prefix + [] == prefix;
    }
  }

  /**
   * The scan ran exactly as long as the loop says: every window but the last
   * was followed by another because at most `limit` events were held and
   * its start was above the floor, and after the last one more than `limit`
   * events are held or its start is at or below the floor.
   */
  lemma ScanWindowsStop(oracle: EventsOracle, head: nat, step: int, floor: int, limit: int)
    requires step > 0 && floor >= 0
    ensures var ws := ScanWindows(oracle, head, step, floor, limit);
      Stopped(oracle, ws, floor, limit) && KeptGoing(oracle, ws, 0, floor, limit)
  {
    var w0 := Window(head, Latest);
    assert Collected(oracle, [w0]) == PastEvents(oracle, w0) by {
      assert [w0][..0] == [];
    }
    MoreWindowsStop(oracle, [w0], step, floor, limit);
  }

  /** The events of the list run from the newest block to the oldest. */
  ghost predicate NewestFirst(events: seq<TakeEvent>)
  {
    forall i, j :: 0 <= i < j < |events| ==> events[i].blockNumber >= events[j].blockNumber
  }

  /**
   * The ledger answers a query with events inside its window (both ends
   * included, `latest` bounding nothing), oldest first.
   */
  ghost predicate AnswersInOrder(oracle: EventsOracle)
  {
    forall f: int, t: BlockTag ::
      && (forall i :: 0 <= i < |oracle(f, t)| ==>
            f <= oracle(f, t)[i].blockNumber && (t.At? ==> oracle(f, t)[i].blockNumber <= t.number))
      && (forall i, j :: 0 <= i < j < |oracle(f, t)| ==> oracle(f, t)[i].blockNumber <= oracle(f, t)[j].blockNumber)
  }

  lemma PastEventsInOrder(oracle: EventsOracle, w: Window)
    requires AnswersInOrder(oracle)
    ensures NewestFirst(PastEvents(oracle, w))
    ensures forall e :: e in PastEvents(oracle, w) ==>
      w.fromBlock <= e.blockNumber && (w.toBlock.At? ==> e.blockNumber <= w.toBlock.number)
  {
    var es := oracle(w.fromBlock, w.toBlock);
    var r := PastEvents(oracle, w);
    forall e | e in r
      ensures w.fromBlock <= e.blockNumber && (w.toBlock.At? ==> e.blockNumber <= w.toBlock.number)
    {
      var i :| 0 <= i < |r| && r[i] == e;
      assert r[i] == es[|es| - 1 - i];
    }
  }

  /**
   * Newer events placed after older ones, split at the block `bound`, stay
   * newest first, and none of them is older than `low`.
   */
  lemma ConcatNewestFirst(older: seq<TakeEvent>, newer: seq<TakeEvent>, bound: int, low: int)
    requires NewestFirst(older) && NewestFirst(newer) && low <= bound
    requires forall e :: e in older ==> e.blockNumber >= bound
    requires forall e :: e in newer ==> low <= e.blockNumber <= bound
    ensures NewestFirst(older + newer)
    ensures forall e :: e in older + newer ==> e.blockNumber >= low
  {
    var all := older + newer;
    forall i: int, j: int | 0 <= i < j < |all|
      ensures all[i].blockNumber >= all[j].blockNumber
    {
      if i < |older| && j >= |older| {
        assert older[i] in older;
        assert newer[j - |older|] in newer;
      }
    }
  }

  /** Dropping the last window keeps the chain, and the last window follows the one before it. */
  lemma ChainedInit(ws: seq<Window>, step: int)
    requires |ws| > 1 && Chained(ws, step)
    ensures Chained(ws[..|ws| - 1], step)
    ensures ws[|ws| - 1] == NextWindow(ws[|ws| - 2], step)
  {
    var init := ws[..|ws| - 1];
    forall k | 0 < k < |init| ensures init[k] == NextWindow(init[k - 1], step) {
      assert init[k] == ws[k] && init[k - 1] == ws[k - 1];
    }
  }

  /** The events of windows that end with `w` are those before it, then those of `w`. */
  lemma CollectedLast(oracle: EventsOracle, ws: seq<Window>)
    requires ws != []
    ensures Collected(oracle, ws) == Collected(oracle, ws[..|ws| - 1]) + PastEvents(oracle, ws[|ws| - 1])
  {
  }

  /**
   * Chained windows that start with `[head, latest]` yield their events
   * newest first, none older than the start of the last window.
   */
  lemma {:induction false} CollectedNewestFirst(oracle: EventsOracle, ws: seq<Window>, step: int)
    requires step > 0 && AnswersInOrder(oracle)
    requires ws != [] && ws[0].toBlock == Latest && ws[0].fromBlock >= 0
    requires Chained(ws, step)
    ensures NewestFirst(Collected(oracle, ws))
    ensures forall e :: e in Collected(oracle, ws) ==> e.blockNumber >= ws[|ws| - 1].fromBlock
    ensures ws[|ws| - 1].fromBlock >= 0
  {
    var n := |ws|;
    var last := ws[n - 1];
    PastEventsInOrder(oracle, last);
    CollectedLast(oracle, ws);
    if n == 1 {
      assert Collected(oracle, ws[..0]) == [];
    } else {
      var init := ws[..n - 1];
      ChainedInit(ws, step);
      CollectedNewestFirst(oracle, init, step);
      ConcatNewestFirst(Collected(oracle, init), PastEvents(oracle, last), init[n - 2].fromBlock, last.fromBlock);
    }
  }

  /** The whole scan yields its events newest first. */
  lemma ScanNewestFirst(oracle: EventsOracle, head: nat, step: int, floor: int, limit: int)
    requires step > 0 && floor >= 0
    requires AnswersInOrder(oracle)
    ensures NewestFirst(Collected(oracle, ScanWindows(oracle, head, step, floor, limit)))
  {
    ScanWindowsChained(oracle, head, step, floor, limit);
    CollectedNewestFirst(oracle, ScanWindows(oracle, head, step, floor, limit), step);
  }

  /**
   * One turn of the scan loop keeps its invariant: the events held are those
   * of the windows queried so far, and those windows followed by the ones
   * still to come are the whole scan.
   */
  lemma ScanStep(oracle: EventsOracle, ws: seq<Window>, events: seq<TakeEvent>, toBlock: int,
                 step: int, floor: int, limit: int, all: seq<Window>)
    requires step > 0 && floor >= 0 && |events| <= limit && toBlock > floor
    requires events == Collected(oracle, ws)
    requires ws + MoreWindows(oracle, |events|, toBlock, step, floor, limit) == all
    ensures var w := Window(Max0(toBlock - step), At(toBlock));
      && events + PastEvents(oracle, w) == Collected(oracle, ws + [w])
      && (ws + [w]) + MoreWindows(oracle, |events + PastEvents(oracle, w)|, w.fromBlock, step, floor, limit) == all
  {
    var w := Window(Max0(toBlock - step), At(toBlock));
    var past := PastEvents(oracle, w);
    CollectedAppend(oracle, ws, w);
    assert |events + past| == |events| + |oracle(w.fromBlock, w.toBlock)|;
    MoreWindowsStep(oracle, |events|, toBlock, step, floor, limit);
    var more := MoreWindows(oracle, |events + past|, w.fromBlock, step, floor, limit);
    assert ws + ([w] + more) == all;
    AppendAssoc(ws, [w], more);
  }

  /** While the loop goes on, the next window is `[max(toBlock - step, 0), toBlock]`. */
  lemma MoreWindowsStep(oracle: EventsOracle, have: nat, toBlock: int, step: int, floor: int, limit: int)
    requires step > 0 && floor >= 0 && have <= limit && toBlock > floor
    ensures var w := Window(Max0(toBlock - step), At(toBlock));
      MoreWindows(oracle, have, toBlock, step, floor, limit)
        == [w] + MoreWindows(oracle, have + |oracle(w.fromBlock, w.toBlock)|, w.fromBlock, step, floor, limit)
  {
  }

  lemma AppendAssoc<T>(a: seq<T>, b: seq<T>, c: seq<T>)
    ensures a + (b + c) == (a + b) + c
  {
  }

  /** The oracle of a chain with a single `LogTake`, mined in block 10. */
  function OneTakeAt10(fromBlock: int, toBlock: BlockTag): seq<TakeEvent>
  {
    if fromBlock <= 10 && (toBlock.Latest? || 10 <= toBlock.number) then [TakeEvent(10, 7, 3)] else []
  }

  /**
   * Consecutive windows share their boundary block, so a `LogTake` mined in
   * that block is collected by both: scanning back from head 10 in steps of
   * 5 yields the single event twice.
   */
  lemma BoundaryCountedTwice()
    ensures Collected(OneTakeAt10, ScanWindows(OneTakeAt10, 10, 5, 0, 5)) == [TakeEvent(10, 7, 3), TakeEvent(10, 7, 3)]
  {
    var e := TakeEvent(10, 7, 3);
    assert OneTakeAt10(10, Latest) == [e] && OneTakeAt10(5, At(10)) == [e] && OneTakeAt10(0, At(5)) == [];
    assert MoreWindows(OneTakeAt10, 2, 0, 5, 0, 5) == [];
    assert MoreWindows(OneTakeAt10, 2, 5, 5, 0, 5) == [Window(0, At(5))];
    assert MoreWindows(OneTakeAt10, 1, 10, 5, 0, 5) == [Window(5, At(10)), Window(0, At(5))];
    var ws := [Window(10, Latest), Window(5, At(10)), Window(0, At(5))];
    assert ScanWindows(OneTakeAt10, 10, 5, 0, 5) == ws;
    CollectedAppend(OneTakeAt10, [], ws[0]);
    assert [] + [ws[0]] == ws[..1];
    CollectedAppend(OneTakeAt10, ws[..1], ws[1]);
    assert ws[..1] + [ws[1]] == ws[..2];
    CollectedAppend(OneTakeAt10, ws[..2], ws[2]);
    assert ws[..2] + [ws[2]] == ws;
  }

  /**
   * The loop both copies run: query `[head, latest]`, then step back one
   * window at a time while at most `limit` events are held and the last
   * window began above `floor`, appending each window's events newest first.
   */
  method ScanEvents(oracle: EventsOracle, head: nat, step: int, floor: int, limit: int) returns (events: seq<TakeEvent>)
    requires step > 0 && floor >= 0
    ensures events == Collected(oracle, ScanWindows(oracle, head, step, floor, limit))
  {
    ghost var all := ScanWindows(oracle, head, step, floor, limit);
    var fromBlock: int := head;
    events := PastEvents(oracle, Window(fromBlock, Latest));
    ghost var ws := [Window(fromBlock, Latest)];
    CollectedLast(oracle, ws);
    assert Collected(oracle, ws[..0]) == [];
    // From here on `toBlock` is a block number, no longer `latest`.
    var toBlock: int := fromBlock;
    fromBlock := Max0(fromBlock - step);
    while |events| <= limit && toBlock > floor
      invariant toBlock >= 0 && fromBlock == Max0(toBlock - step)
      invariant events == Collected(oracle, ws)
      invariant ws + MoreWindows(oracle, |events|, toBlock, step, floor, limit) == all
      decreases toBlock
    {
      ScanStep(oracle, ws, events, toBlock, step, floor, limit, all);
      var w := Window(fromBlock, At(toBlock));
      events := events + PastEvents(oracle, w);
      ws := ws + [w];
      toBlock := fromBlock;
      fromBlock := Max0(fromBlock - step);
    }
    assert MoreWindows(oracle, |events|, toBlock, step, floor, limit) == [];
    assert ws + [] == ws;
  }
}
