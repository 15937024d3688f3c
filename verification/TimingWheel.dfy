/** The timing wheel of libco/co_routine.cpp as a list of slots relative to its origin: slot k
    holds what is due k milliseconds after ullStart. The circular array with a moving start
    index (class in WheelArray) is proved to behave as this list. */
module TimingWheel {
  import opened Sequences
  import opened TimeoutItem

  const ERR_CLOCK: int := 390    // the __LINE__ returned when allNow is behind the origin
  const ERR_EXPIRED: int := 397  // the __LINE__ returned when the deadline is behind allNow

  // `far` records which items were clamped to the last slot when they were last filed.
  datatype Wheel = Wheel(slots: seq<seq<Item>>, ullStart: nat, far: set<Item>)

  ghost predicate Valid(w: Wheel) {
    && 0 < |w.slots| < 0x8000_0000
    && (w.ullStart == 0 ==> Flatten(w.slots) == [])
    && forall k | 0 <= k < |w.slots| :: SlotValid(w, k)
  }

  // What waits in slot k is not due before ullStart + k, and exactly then unless it was clamped.
  ghost predicate SlotValid(w: Wheel, k: int)
    requires 0 <= k < |w.slots|
  {
    forall x | x in w.slots[k] ::
      && w.ullStart + k <= x.deadline
      && (x !in w.far ==> x.deadline == w.ullStart + k)
  }

  function Pending(w: Wheel): multiset<Item> {
    multiset(Flatten(w.slots))
  }

  // A zero origin means "not initialised yet" (lines 380-384 and 415-419).
  function Started(w: Wheel, allNow: nat): Wheel {
    if w.ullStart == 0 then w.(ullStart := allNow) else w
  }

  function AddTimeout(w0: Wheel, x: Item, allNow: nat): (r: (Wheel, int))
    requires |w0.slots| > 0
  {
    var w := Started(w0, allNow);
    if allNow < w.ullStart then (w, ERR_CLOCK)
    else if x.deadline < allNow then (w, ERR_EXPIRED)
    else
      var diff := x.deadline - w.ullStart;
      if diff >= |w.slots| then (File(w, x, |w.slots| - 1).(far := w.far + {x}), 0)
      else (File(w, x, diff).(far := w.far - {x}), 0)
  }

  function File(w: Wheel, x: Item, k: nat): Wheel
    requires k < |w.slots|
  {
    w.(slots := w.slots[k := w.slots[k] + [x]])
  }

  // The conversion of an unsigned 64-bit difference to a 32-bit int.
  function TruncateToInt(d: nat): (r: int)
    ensures -0x8000_0000 <= r < 0x8000_0000
  {
    var m := d % 0x1_0000_0000;
    if m < 0x8000_0000 then m else m - 0x1_0000_0000
  }

  // The number of slots one call takes: `elapsed` is allNow - ullStart (lines 425-433).
  function TakeCount(elapsed: nat, size: nat): (cnt: int)
    ensures cnt <= size
  {
    var cnt := TruncateToInt(elapsed + 1);
    if cnt > size then size else cnt
  }

  // The truncated count is exactly zero: the call would move the start index backwards.
  predicate WrapsToZero(w: Wheel, allNow: nat) {
    w.ullStart <= allNow && TakeCount(allNow - w.ullStart, |w.slots|) == 0
  }

  function TakeAllTimeout(w0: Wheel, allNow: nat): (r: (Wheel, seq<Item>))
    requires |w0.slots| > 0
  {
    var w := Started(w0, allNow);
    if allNow < w.ullStart then (w, [])
    else TakeSlots(w, allNow, TakeCount(allNow - w.ullStart, |w.slots|))
  }

  function TakeSlots(w: Wheel, allNow: nat, cnt: int): (r: (Wheel, seq<Item>))
    requires |w.slots| > 0 && cnt <= |w.slots|
  {
    if cnt < 0 then (w, [])
    else (w.(ullStart := allNow, slots := Turned(w.slots, cnt)), Flatten(w.slots[..cnt]))
  }

  // The first cnt slots are emptied and the origin moves on by cnt - 1 slots (back by one if cnt is 0).
  function Turned(slots: seq<seq<Item>>, cnt: nat): (r: seq<seq<Item>>)
    requires 0 < |slots| && cnt <= |slots|
    ensures |r| == |slots|
  {
    if cnt == 0 then [slots[|slots| - 1]] + slots[..|slots| - 1]
    else [[]] + slots[cnt..] + seq(cnt - 1, _ => [])
  }

  // RemoveFromLink on an item that a slot may hold.
  function Remove(w: Wheel, x: Item): Wheel {
    w.(slots := DropEach(w.slots, x))
  }

  // ---- What every operation keeps --------------------------------------------------------

  lemma StartedValid(w: Wheel, allNow: nat)
    requires Valid(w)
    ensures Valid(Started(w, allNow)) || allNow == 0
  {
    var s := Started(w, allNow);
    if w.ullStart == 0 {
      forall k | 0 <= k < |s.slots| ensures SlotValid(s, k) {
        forall x | x in s.slots[k] ensures false {
          InFlatten(s.slots, k, x);
        }
      }
    }
  }

  // Filing x in slot k is right when the slot is not later than its deadline.
  lemma FileKeepsValid(w: Wheel, x: Item, k: nat, clamped: bool)
    requires Valid(w) && x !in Flatten(w.slots) && k < |w.slots| && 0 < w.ullStart
    requires w.ullStart + k <= x.deadline && (!clamped ==> x.deadline == w.ullStart + k)
    ensures Valid(File(w, x, k).(far := if clamped then w.far + {x} else w.far - {x}))
  {
    var w' := File(w, x, k).(far := if clamped then w.far + {x} else w.far - {x});
    forall j | 0 <= j < |w'.slots| ensures SlotValid(w', j) {
      assert SlotValid(w, j);
      forall y | y in w.slots[j] ensures y != x {
        InFlatten(w.slots, j, y);
      }
    }
  }

  lemma AddKeepsValid(w: Wheel, x: Item, allNow: nat)
    requires Valid(w) && x !in Pending(w) && 0 < allNow
    ensures var (w', ret) := AddTimeout(w, x, allNow);
            && Valid(w')
            && (ret == 0 <==> (w.ullStart == 0 || w.ullStart <= allNow) && allNow <= x.deadline)
            && Pending(w') == (if ret == 0 then Pending(w) + multiset{x} else Pending(w))
            && (ret == 0 ==> 0 < w'.ullStart <= allNow)
  {
    var s := Started(w, allNow);
    StartedValid(w, allNow);
    if s.ullStart <= allNow <= x.deadline {
      var diff := x.deadline - s.ullStart;
      var clamped := diff >= |w.slots|;
      var k := if clamped then |w.slots| - 1 else diff;
      FileKeepsValid(s, x, k, clamped);
      FlattenAppendAt(s.slots, k, x);
    }
  }

  lemma RemoveKeepsValid(w: Wheel, x: Item)
    requires Valid(w)
    ensures Valid(Remove(w, x)) && Pending(Remove(w, x)) == Pending(w)[x := 0]
  {
    var w' := Remove(w, x);
    FlattenDrop(w.slots, x);
    DropMultiset(Flatten(w.slots), x);
    if w.ullStart == 0 {
      assert Drop(Flatten(w.slots), x) == [];
    }
    forall k | 0 <= k < |w'.slots| ensures SlotValid(w', k) {
      assert SlotValid(w, k);
      forall y | y in w'.slots[k] ensures y in w.slots[k] {
        DropMultiset(w.slots[k], x);
        assert y in multiset(Drop(w.slots[k], x));
      }
    }
  }

  // Nothing is lost or copied by a turn, however the count was truncated.
  lemma TurnConserves(slots: seq<seq<Item>>, cnt: nat)
    requires 0 < |slots| && 0 < cnt <= |slots|
    ensures Flatten(slots) == Flatten(slots[..cnt]) + Flatten(Turned(slots, cnt))
  {
    FlattenSplit(slots, cnt);
    var empties: seq<seq<Item>> := seq(cnt - 1, _ => []);
    FlattenNothing<Item>([[]]);
    FlattenNothing<Item>(empties);
    FlattenPadded([[]], slots[cnt..], empties);
  }

  lemma TurnBackConserves(slots: seq<seq<Item>>)
    requires 0 < |slots|
    ensures multiset(Flatten(slots)) == multiset(Flatten(Turned(slots, 0)))
  {
    var n := |slots| - 1;
    FlattenSplit(slots, n);
    var turned := Turned(slots, 0);
    FlattenSplit(turned, 1);
    assert turned[..1] == slots[n..] && turned[1..] == slots[..n];
  }

  lemma TakeConserves(w: Wheel, allNow: nat)
    requires Valid(w)
    ensures var (w', taken) := TakeAllTimeout(w, allNow);
            Pending(w) == multiset(taken) + Pending(w')
  {
    var s := Started(w, allNow);
    if s.ullStart <= allNow {
      var cnt := TakeCount(allNow - s.ullStart, |s.slots|);
      if cnt == 0 {
        TurnBackConserves(s.slots);
        assert s.slots[..0] == [];
      } else if cnt > 0 {
        TurnConserves(s.slots, cnt);
      }
    }
  }

  // ---- When the truncation of the count is harmless ------------------------------------------

  // The guard a caller can test: the truncated count still covers the elapsed slots.
  predicate Faithful(elapsed: nat, size: nat) {
    TakeCount(elapsed, size) == if elapsed + 1 < size then elapsed + 1 else size
  }

  lemma ShortGapsAreFaithful(elapsed: nat, size: nat)
    requires size < 0x8000_0000 && elapsed < 0x7fff_ffff
    ensures Faithful(elapsed, size)
  {
  }

  // A negative count leaves the wheel alone, and a faithful one moves the origin.
  lemma TakeKeepsValid(w: Wheel, allNow: nat)
    requires Valid(w) && 0 < allNow
    requires 0 < w.ullStart <= allNow ==> KeepsSlots(allNow - w.ullStart, |w.slots|)
    ensures var (w', taken) := TakeAllTimeout(w, allNow);
            && Valid(w')
            && (0 < w.ullStart <= allNow && !Faithful(allNow - w.ullStart, |w.slots|) ==> w' == w && taken == [])
            && (w.ullStart == 0 || (w.ullStart <= allNow && Faithful(allNow - w.ullStart, |w.slots|)) ==>
                  w'.ullStart == allNow)
            && (allNow < w.ullStart ==> w' == w)
  {
    var s := Started(w, allNow);
    StartedValid(w, allNow);
    if s.ullStart <= allNow {
      ShortGapsAreFaithful(0, |w.slots|);
      if Faithful(allNow - s.ullStart, |s.slots|) {
        TurnKeepsValid(s, allNow);
      }
    }
  }

  // The gaps that a wheel survives.
  predicate KeepsSlots(elapsed: nat, size: nat) {
    Faithful(elapsed, size) || TakeCount(elapsed, size) < 0
  }

  lemma TurnKeepsValid(s: Wheel, allNow: nat)
    requires Valid(s) && 0 < s.ullStart <= allNow && Faithful(allNow - s.ullStart, |s.slots|)
    ensures Valid(TakeAllTimeout(s, allNow).0)
  {
    var cnt := TakeCount(allNow - s.ullStart, |s.slots|);
    var w' := TakeAllTimeout(s, allNow).0;
    forall k | 0 <= k < |w'.slots| ensures SlotValid(w', k) {
      if 0 < k && k + cnt - 1 < |s.slots| {
        assert w'.slots[k] == s.slots[k + cnt - 1];
        assert SlotValid(s, k + cnt - 1);
      } else {
        assert w'.slots[k] == [];
      }
    }
  }

  // ---- Completeness and exactness of one call --------------------------------------------

  // Everything due is delivered, and an item delivered before its deadline was clamped.
  lemma TakeIsExact(w: Wheel, allNow: nat, x: Item)
    requires Valid(w) && 0 < w.ullStart <= allNow && Faithful(allNow - w.ullStart, |w.slots|)
    requires x in Pending(w)
    ensures x.deadline <= allNow ==> x in TakeAllTimeout(w, allNow).1
    ensures x in TakeAllTimeout(w, allNow).1 && allNow < x.deadline ==> x in w.far
  {
    var cnt := TakeCount(allNow - w.ullStart, |w.slots|);
    var taken := TakeAllTimeout(w, allNow).1;
    if x.deadline <= allNow {
      var k := SlotOf(w.slots, x);
      assert SlotValid(w, k);
      assert k < cnt && x in w.slots[..cnt][k];
      InFlatten(w.slots[..cnt], k, x);
    }
    if x in taken && x !in w.far {
      var k := SlotOf(w.slots[..cnt], x);
      assert SlotValid(w, k) && x in w.slots[k];
    }
  }

  ghost predicate DeliversAllDue(w: Wheel, allNow: nat)
    requires |w.slots| > 0
  {
    forall x | x in Pending(w) && x.deadline <= allNow :: x in TakeAllTimeout(w, allNow).1
  }

  // The truncation decides alone: every wheel with this origin is drained of what is due if and
  // only if the truncated count covers the elapsed slots.
  lemma CompleteIffFaithful(ullStart: nat, size: nat, allNow: nat)
    requires 0 < ullStart <= allNow && 0 < size < 0x8000_0000
    ensures Faithful(allNow - ullStart, size) <==>
            forall w: Wheel | Valid(w) && w.ullStart == ullStart && |w.slots| == size :: DeliversAllDue(w, allNow)
  {
    if Faithful(allNow - ullStart, size) {
      forall w: Wheel | Valid(w) && w.ullStart == ullStart && |w.slots| == size ensures DeliversAllDue(w, allNow) {
        forall x | x in Pending(w) && x.deadline <= allNow ensures x in TakeAllTimeout(w, allNow).1 {
          TakeIsExact(w, allNow, x);
        }
      }
    } else {
      var w := OverdueWheel(ullStart, size, allNow);
      OverdueIsMissed(ullStart, size, allNow);
      assert !DeliversAllDue(w, allNow);
    }
  }

  function EmptyWheel(ullStart: nat, size: nat): Wheel {
    Wheel(seq(size, _ => []), ullStart, {})
  }

  // One item that is due exactly now, filed when the origin was ullStart.
  function OverdueWheel(ullStart: nat, size: nat, allNow: nat): (w: Wheel)
    requires 0 < ullStart <= allNow && 0 < size < 0x8000_0000
  {
    var x := Item(0, 0, allNow, Poll);
    AddTimeout(EmptyWheel(ullStart, size), x, ullStart).0
  }

  lemma OverdueIsFiled(ullStart: nat, size: nat, allNow: nat) returns (k: nat)
    requires 0 < ullStart <= allNow && 0 < size < 0x8000_0000
    ensures var w, x := OverdueWheel(ullStart, size, allNow), Item(0, 0, allNow, Poll);
            && Valid(w) && w.ullStart == ullStart && |w.slots| == size && x in Pending(w)
            && k == (if allNow - ullStart < size then allNow - ullStart else size - 1)
            && w.slots[k] == [x] && AloneAt(w.slots, k)
  {
    var x, empty := Item(0, 0, allNow, Poll), EmptyWheel(ullStart, size);
    k := if allNow - ullStart < size then allNow - ullStart else size - 1;
    FlattenNothing<Item>(empty.slots);
    AddKeepsValid(empty, x, ullStart);
    assert [] + [x] == [x];
  }

  ghost predicate AloneAt(slots: seq<seq<Item>>, k: nat) {
    forall j | 0 <= j < |slots| && j != k :: slots[j] == []
  }

  // A turn that stops before the only slot in use delivers nothing.
  lemma NothingBefore(w: Wheel, k: nat, allNow: nat)
    requires 0 < w.ullStart <= allNow && AloneAt(w.slots, k)
    requires TakeCount(allNow - w.ullStart, |w.slots|) <= k < |w.slots|
    ensures TakeAllTimeout(w, allNow).1 == []
  {
    var cnt := TakeCount(allNow - w.ullStart, |w.slots|);
    if cnt >= 0 {
      FlattenNothing<Item>(w.slots[..cnt]);
    }
  }

  lemma OverdueIsMissed(ullStart: nat, size: nat, allNow: nat)
    requires 0 < ullStart <= allNow && 0 < size < 0x8000_0000
    requires !Faithful(allNow - ullStart, size)
    ensures var w := OverdueWheel(ullStart, size, allNow);
            && Valid(w) && w.ullStart == ullStart && |w.slots| == size
            && Item(0, 0, allNow, Poll) in Pending(w)
            && TakeAllTimeout(w, allNow).1 == []
  {
    var k := OverdueIsFiled(ullStart, size, allNow);
    UnfaithfulCount(allNow - ullStart, size);
    NothingBefore(OverdueWheel(ullStart, size, allNow), k, allNow);
  }

  lemma UnfaithfulCount(elapsed: nat, size: nat)
    requires !Faithful(elapsed, size)
    ensures TakeCount(elapsed, size) < size && TakeCount(elapsed, size) <= elapsed
  {
  }

  // The slot rule survives the turn of every wheel with this origin if and only if the count is
  // faithful or negative.
  lemma SlotsSurviveIff(ullStart: nat, size: nat, allNow: nat)
    requires 0 < ullStart <= allNow && 0 < size < 0x8000_0000
    ensures KeepsSlots(allNow - ullStart, size) <==>
            forall w: Wheel | Valid(w) && w.ullStart == ullStart && |w.slots| == size ::
              Valid(TakeAllTimeout(w, allNow).0)
  {
    if KeepsSlots(allNow - ullStart, size) {
      forall w: Wheel | Valid(w) && w.ullStart == ullStart && |w.slots| == size
        ensures Valid(TakeAllTimeout(w, allNow).0)
      {
        TakeKeepsValid(w, allNow);
      }
    } else if TakeCount(allNow - ullStart, size) == 0 {
      ZeroCountMisfiles(ullStart, size, allNow);
    } else {
      OverdueIsMissed(ullStart, size, allNow);
      OverdueIsMisfiled(ullStart, size, allNow);
    }
  }

  lemma ZeroNeedsLongGap(elapsed: nat, size: nat)
    requires 0 < size && TakeCount(elapsed, size) == 0
    ensures 0xffff_ffff <= elapsed
  {
  }

  // An item due just before now, filed when the origin was ullStart.
  function LateWheel(ullStart: nat, size: nat, allNow: nat): Wheel
    requires 0 < size && 0 < allNow
  {
    AddTimeout(EmptyWheel(ullStart, size), Item(0, 0, allNow - 1, Poll), ullStart).0
  }

  lemma LateIsFiled(ullStart: nat, size: nat, allNow: nat)
    requires 0 < ullStart && 0 < size < 0x8000_0000 && ullStart + size < allNow
    ensures var w := LateWheel(ullStart, size, allNow);
            && Valid(w) && w.ullStart == ullStart && |w.slots| == size
            && Item(0, 0, allNow - 1, Poll) in w.slots[size - 1]
  {
    var x, w := Item(0, 0, allNow - 1, Poll), EmptyWheel(ullStart, size);
    FlattenNothing(w.slots);
    AddKeepsValid(w, x, ullStart);
  }

  // A count of zero turns the wheel back by one: the last slot, with that item, is now the first.
  lemma LateIsMisfiled(w: Wheel, allNow: nat, x: Item)
    requires |w.slots| > 0 && x in w.slots[|w.slots| - 1] && x.deadline < allNow
    ensures !Valid(TakeSlots(w, allNow, 0).0)
  {
    var w' := TakeSlots(w, allNow, 0).0;
    assert w'.slots[0] == w.slots[|w.slots| - 1];
    assert !SlotValid(w', 0);
  }

  lemma ZeroCountMisfiles(ullStart: nat, size: nat, allNow: nat)
    requires 0 < ullStart <= allNow && 0 < size < 0x8000_0000 && TakeCount(allNow - ullStart, size) == 0
    ensures var w := LateWheel(ullStart, size, allNow);
            Valid(w) && w.ullStart == ullStart && |w.slots| == size && !Valid(TakeAllTimeout(w, allNow).0)
  {
    ZeroNeedsLongGap(allNow - ullStart, size);
    LateIsFiled(ullStart, size, allNow);
    LateIsMisfiled(LateWheel(ullStart, size, allNow), allNow, Item(0, 0, allNow - 1, Poll));
  }

  lemma OverdueIsMisfiled(ullStart: nat, size: nat, allNow: nat)
    requires 0 < ullStart <= allNow && 0 < size < 0x8000_0000
    requires 0 < TakeCount(allNow - ullStart, size) && !Faithful(allNow - ullStart, size)
    ensures !Valid(TakeAllTimeout(OverdueWheel(ullStart, size, allNow), allNow).0)
  {
    var k := OverdueIsFiled(ullStart, size, allNow);
    UnfaithfulCount(allNow - ullStart, size);
    Misfiled(OverdueWheel(ullStart, size, allNow), k, allNow, TakeCount(allNow - ullStart, size),
             Item(0, 0, allNow, Poll));
  }

  // An item that is due and not taken ends up in a slot that is too late for it.
  lemma Misfiled(w: Wheel, k: nat, allNow: nat, cnt: nat, x: Item)
    requires 0 < cnt <= k < |w.slots| && x in w.slots[k] && x.deadline <= allNow
    ensures !Valid(TakeSlots(w, allNow, cnt).0)
  {
    var w' := TakeSlots(w, allNow, cnt).0;
    assert w'.slots[k - cnt + 1] == w.slots[k];
    assert !SlotValid(w', k - cnt + 1);
  }

  // A clock gap of 2^31 - 1 ms is the first that fails: the count turns negative.
  lemma LongGapDeliversNothing(w: Wheel, allNow: nat)
    requires |w.slots| > 0 && 0 < w.ullStart && allNow == w.ullStart + 0x7fff_ffff
    ensures TakeAllTimeout(w, allNow) == (w, [])
    ensures !Faithful(0x7fff_ffff, |w.slots|)
  {
    assert TruncateToInt(0x8000_0000) == -0x8000_0000;
  }

  // Unclamped items come out in deadline order.
  lemma TakenInDeadlineOrder(w: Wheel, allNow: nat)
    requires Valid(w) && 0 < w.ullStart && w.far == {}
    ensures InOrder(TakeAllTimeout(w, allNow).1)
  {
    if w.ullStart <= allNow && TakeCount(allNow - w.ullStart, |w.slots|) >= 0 {
      var front := w.slots[..TakeCount(allNow - w.ullStart, |w.slots|)];
      forall k | 0 <= k < |front| ensures AllDueAt(front[k], w.ullStart + k) {
        assert SlotValid(w, k);
      }
      SlotsInOrder(front, w.ullStart);
    }
  }

  ghost predicate InOrder(s: seq<Item>) {
    forall i, j | 0 <= i < j < |s| :: s[i].deadline <= s[j].deadline
  }

  ghost predicate AllDueAt(s: seq<Item>, tick: int) {
    forall x | x in s :: x.deadline == tick
  }

  lemma {:induction false} SlotsInOrder(slots: seq<seq<Item>>, base: nat)
    requires forall k | 0 <= k < |slots| :: AllDueAt(slots[k], base + k)
    ensures InOrder(Flatten(slots)) && forall x | x in Flatten(slots) :: base <= x.deadline
  {
    if slots != [] {
      var first, rest := slots[0], slots[1..];
      forall k | 0 <= k < |rest| ensures AllDueAt(rest[k], base + 1 + k) {
        assert AllDueAt(slots[k + 1], base + (k + 1));
      }
      SlotsInOrder(rest, base + 1);
      assert AllDueAt(slots[0], base + 0);
      assert Flatten(slots) == first + Flatten(rest);
    }
  }

  // ---- How soon an item can be taken ------------------------------------------------------

  // No item sits in a slot that is reached before the tick recorded for it.
  ghost predicate NotBefore(w: Wheel, tick: map<Item, int>) {
    forall k | 0 <= k < |w.slots| :: SlotNotBefore(w, k, tick)
  }

  ghost predicate SlotNotBefore(w: Wheel, k: int, tick: map<Item, int>)
    requires 0 <= k < |w.slots|
  {
    forall x | x in w.slots[k] :: x in tick && tick[x] <= w.ullStart + k
  }

  // The tick at which an item filed now is taken: its deadline, or a full turn if that is nearer.
  function FiledTick(w: Wheel, x: Item): int
    requires |w.slots| > 0
  {
    if x.deadline - w.ullStart >= |w.slots| then w.ullStart + |w.slots| - 1 else x.deadline
  }

  lemma AddKeepsTicks(w: Wheel, x: Item, allNow: nat, tick: map<Item, int>)
    requires Valid(w) && NotBefore(w, tick) && x !in Pending(w) && 0 < w.ullStart <= allNow <= x.deadline
    ensures NotBefore(AddTimeout(w, x, allNow).0, tick[x := FiledTick(w, x)])
  {
    var w', tick' := AddTimeout(w, x, allNow).0, tick[x := FiledTick(w, x)];
    forall k | 0 <= k < |w'.slots| ensures SlotNotBefore(w', k, tick') {
      assert SlotNotBefore(w, k, tick);
      forall y | y in w.slots[k] ensures y != x {
        InFlatten(w.slots, k, y);
      }
    }
  }

  lemma RemoveKeepsTicks(w: Wheel, x: Item, tick: map<Item, int>)
    requires NotBefore(w, tick)
    ensures NotBefore(Remove(w, x), tick)
  {
    var w' := Remove(w, x);
    forall k | 0 <= k < |w'.slots| ensures SlotNotBefore(w', k, tick) {
      assert SlotNotBefore(w, k, tick);
      forall y | y in w'.slots[k] ensures y in w.slots[k] {
        DropMultiset(w.slots[k], x);
        assert y in multiset(Drop(w.slots[k], x));
      }
    }
  }

  lemma TakeKeepsTicks(w: Wheel, allNow: nat, tick: map<Item, int>)
    requires Valid(w) && NotBefore(w, tick) && 0 < w.ullStart <= allNow
    requires Faithful(allNow - w.ullStart, |w.slots|)
    ensures var (w', taken) := TakeAllTimeout(w, allNow);
            && NotBefore(w', tick)
            && forall x | x in taken :: x in tick && tick[x] <= allNow
  {
    var cnt := TakeCount(allNow - w.ullStart, |w.slots|);
    var (w', taken) := TakeAllTimeout(w, allNow);
    forall k | 0 <= k < |w'.slots| ensures SlotNotBefore(w', k, tick) {
      if 0 < k && k + cnt - 1 < |w.slots| {
        assert w'.slots[k] == w.slots[k + cnt - 1];
        assert SlotNotBefore(w, k + cnt - 1, tick);
      } else {
        assert w'.slots[k] == [];
      }
    }
    forall x | x in taken ensures x in tick && tick[x] <= allNow {
      var k := SlotOf(w.slots[..cnt], x);
      assert SlotNotBefore(w, k, tick);
    }
  }

  // All that one take of a faithful gap keeps.
  lemma TakeKeepsAll(w: Wheel, allNow: nat, tick: map<Item, int>)
    requires Valid(w) && NotBefore(w, tick) && 0 < w.ullStart && 0 < allNow
    requires w.ullStart <= allNow ==> Faithful(allNow - w.ullStart, |w.slots|)
    ensures var (w', taken) := TakeAllTimeout(w, allNow);
            && Valid(w') && 0 < w'.ullStart && w'.far == w.far && |w'.slots| == |w.slots| && NotBefore(w', tick)
            && Pending(w) == multiset(taken) + Pending(w')
            && forall x | x in taken :: Reached(w, x, allNow, tick) && w'.ullStart == allNow
  {
    TakeConserves(w, allNow);
    TakeKeepsValid(w, allNow);
    if w.ullStart <= allNow {
      TakeKeepsTicks(w, allNow, tick);
      forall x | x in TakeAllTimeout(w, allNow).1 ensures Reached(w, x, allNow, tick) {
        assert x in multiset(TakeAllTimeout(w, allNow).1);
        TakeIsExact(w, allNow, x);
      }
    }
  }

  // Why an item is among those taken: its tick has come, and if it was not clamped so has its deadline.
  ghost predicate Reached(w: Wheel, x: Item, allNow: nat, tick: map<Item, int>) {
    x in Pending(w) && x in tick && tick[x] <= allNow && (x !in w.far ==> x.deadline <= allNow)
  }

  // All that one successful filing keeps.
  lemma AddKeepsAll(w: Wheel, x: Item, allNow: nat, tick: map<Item, int>)
    requires Valid(w) && NotBefore(w, tick) && x !in Pending(w) && 0 < w.ullStart <= allNow <= x.deadline
    ensures var (w', ret) := AddTimeout(w, x, allNow);
            && ret == 0 && Valid(w') && w'.ullStart == w.ullStart && |w'.slots| == |w.slots|
            && Pending(w') == Pending(w) + multiset{x} && NotBefore(w', tick[x := FiledTick(w, x)])
            && (forall y | y != x :: y in w'.far <==> y in w.far)
            && (x in w'.far <==> FiledTick(w, x) < x.deadline)
  {
    AddKeepsValid(w, x, allNow);
    AddKeepsTicks(w, x, allNow, tick);
  }

  // ---- Whole runs -----------------------------------------------------------------------------

  datatype Op = Add(x: Item, now: nat) | Unfile(x: Item) | Turn(now: nat)

  // An item is filed once at a time, and no gap between calls breaks the truncated count.
  predicate Enabled(w: Wheel, op: Op) {
    match op
    case Add(x, now) => x !in Pending(w) && 0 < now
    case Unfile(_) => true
    case Turn(now) => 0 < now && (0 < w.ullStart <= now ==> Faithful(now - w.ullStart, |w.slots|))
  }

  function Next(w: Wheel, op: Op): Wheel
    requires |w.slots| > 0
  {
    match op
    case Add(x, now) => AddTimeout(w, x, now).0
    case Unfile(x) => Remove(w, x)
    case Turn(now) => TakeAllTimeout(w, now).0
  }

  // What a plain multiset of filed items becomes.
  function Expected(filed: multiset<Item>, w: Wheel, op: Op): multiset<Item>
    requires |w.slots| > 0
  {
    match op
    case Add(x, now) => if AddTimeout(w, x, now).1 == 0 then filed + multiset{x} else filed
    case Unfile(x) => filed[x := 0]
    case Turn(now) => filed - multiset(TakeAllTimeout(w, now).1)
  }

  lemma StepKeepsValid(w: Wheel, op: Op)
    requires Valid(w) && Enabled(w, op)
    ensures Valid(Next(w, op)) && Pending(Next(w, op)) == Expected(Pending(w), w, op)
  {
    match op
    case Add(x, now) => AddKeepsValid(w, x, now);
    case Unfile(x) => RemoveKeepsValid(w, x);
    case Turn(now) =>
      TakeKeepsValid(w, now);
      TakeConserves(w, now);
  }

  ghost predicate LegalRun(w: Wheel, ops: seq<Op>)
    decreases |ops|
  {
    ops != [] ==> |w.slots| > 0 && Enabled(w, ops[0]) && LegalRun(Next(w, ops[0]), ops[1..])
  }

  ghost function RunOf(w: Wheel, filed: multiset<Item>, ops: seq<Op>): (r: (Wheel, multiset<Item>))
    requires LegalRun(w, ops)
    decreases |ops|
  {
    if ops == [] then (w, filed) else RunOf(Next(w, ops[0]), Expected(filed, w, ops[0]), ops[1..])
  }

  lemma {:induction false} RunKeepsValid(w: Wheel, ops: seq<Op>)
    requires Valid(w) && LegalRun(w, ops)
    ensures var (w', filed) := RunOf(w, Pending(w), ops);
            Valid(w') && Pending(w') == filed
    decreases |ops|
  {
    if ops != [] {
      StepKeepsValid(w, ops[0]);
      RunKeepsValid(Next(w, ops[0]), ops[1..]);
    }
  }

  // After any run the wheel holds exactly the items that a plain multiset would, and the next take
  // delivers every one of them whose deadline has come, and besides only clamped ones.
  lemma WheelAgreesWithPlainSet(size: nat, start: nat, ops: seq<Op>, now: nat)
    requires 0 < size < 0x8000_0000 && 0 < start
    requires var w0 := Wheel(seq(size, _ => []), start, {}); LegalRun(w0, ops)
    requires var w := RunOf(Wheel(seq(size, _ => []), start, {}), multiset{}, ops).0;
             0 < w.ullStart <= now && |w.slots| > 0 && Faithful(now - w.ullStart, |w.slots|)
    ensures var (w, filed) := RunOf(Wheel(seq(size, _ => []), start, {}), multiset{}, ops);
            var taken := multiset(TakeAllTimeout(w, now).1);
            && Pending(w) == filed && taken <= filed
            && (forall x | x in filed && x.deadline <= now :: x in taken)
            && forall x | x in taken && now < x.deadline :: x in w.far
  {
    var w0 := Wheel(seq(size, _ => []), start, {});
    FlattenNothing<Item>(w0.slots);
    RunKeepsValid(w0, ops);
    var (w, filed) := RunOf(w0, multiset{}, ops);
    TakeConserves(w, now);
    forall x | x in filed
      ensures x.deadline <= now ==> x in TakeAllTimeout(w, now).1
      ensures x in TakeAllTimeout(w, now).1 && now < x.deadline ==> x in w.far
    {
      TakeIsExact(w, now, x);
    }
  }

  // ---- The reference: a plain set -----------------------------------------------------------

  // The last time asked for, and the items that are filed.
  datatype Plain = Plain(start: nat, filed: set<Item>)

  function PlainDue(p: Plain, now: nat): set<Item> {
    if p.start <= now then set x | x in p.filed && x.deadline <= now else {}
  }

  function PlainNext(p: Plain, op: Op): Plain {
    match op
    case Add(x, now) => if p.start <= now <= x.deadline then p.(filed := p.filed + {x}) else p
    case Unfile(x) => p.(filed := p.filed - {x})
    case Turn(now) => if p.start <= now then Plain(now, p.filed - PlainDue(p, now)) else p
  }

  ghost predicate IsPlain(w: Wheel, p: Plain) {
    Valid(w) && 0 < w.ullStart == p.start && w.far == {} && Pending(w) == multiset(p.filed)
  }

  // With nothing clamped a take delivers exactly the items that are due, each once.
  lemma PlainTake(w: Wheel, p: Plain, now: nat)
    requires IsPlain(w, p) && Enabled(w, Turn(now))
    ensures multiset(TakeAllTimeout(w, now).1) == multiset(PlainDue(p, now))
  {
    TakeConserves(w, now);
    if w.ullStart <= now {
      var taken := TakeAllTimeout(w, now).1;
      forall x ensures multiset(taken)[x] == multiset(PlainDue(p, now))[x] {
        assert multiset(taken)[x] <= Pending(w)[x] <= 1;
        if x in Pending(w) {
          TakeIsExact(w, now, x);
        }
      }
    }
  }

  lemma PlainAdd(w: Wheel, p: Plain, x: Item, now: nat)
    requires IsPlain(w, p) && Enabled(w, Add(x, now)) && x.deadline < w.ullStart + |w.slots|
    ensures IsPlain(AddTimeout(w, x, now).0, PlainNext(p, Add(x, now)))
  {
    AddKeepsValid(w, x, now);
    assert x !in p.filed;
    assert multiset(p.filed + {x}) == multiset(p.filed) + multiset{x};
  }

  lemma PlainUnfile(w: Wheel, p: Plain, x: Item)
    requires IsPlain(w, p)
    ensures IsPlain(Remove(w, x), PlainNext(p, Unfile(x)))
  {
    RemoveKeepsValid(w, x);
    assert multiset(p.filed)[x := 0] == multiset(p.filed - {x});
  }

  lemma LeftOver(filed: set<Item>, due: set<Item>, left: multiset<Item>)
    requires due <= filed && multiset(filed) == multiset(due) + left
    ensures left == multiset(filed - due)
  {
    forall x ensures left[x] == multiset(filed - due)[x] {
      assert multiset(filed)[x] == multiset(due)[x] + left[x];
    }
  }

  lemma PlainTurn(w: Wheel, p: Plain, now: nat)
    requires IsPlain(w, p) && Enabled(w, Turn(now))
    ensures IsPlain(TakeAllTimeout(w, now).0, PlainNext(p, Turn(now)))
  {
    TakeKeepsValid(w, now);
    TakeConserves(w, now);
    PlainTake(w, p, now);
    var due, left := PlainDue(p, now), Pending(TakeAllTimeout(w, now).0);
    assert multiset(p.filed) == multiset(due) + left;
    LeftOver(p.filed, due, left);
    assert due == {} ==> p.filed - due == p.filed;
  }

  lemma PlainStep(w: Wheel, p: Plain, op: Op)
    requires IsPlain(w, p) && Enabled(w, op) && (op.Add? ==> op.x.deadline < w.ullStart + |w.slots|)
    ensures IsPlain(Next(w, op), PlainNext(p, op))
  {
    match op
    case Add(x, now) => PlainAdd(w, p, x, now);
    case Unfile(x) => PlainUnfile(w, p, x);
    case Turn(now) => PlainTurn(w, p, now);
  }

  // A run in which no deadline lies beyond the last slot.
  ghost predicate UnclampedRun(w: Wheel, ops: seq<Op>)
    decreases |ops|
  {
    ops != [] ==>
      && |w.slots| > 0 && Enabled(w, ops[0])
      && (ops[0].Add? ==> ops[0].x.deadline < w.ullStart + |w.slots|)
      && UnclampedRun(Next(w, ops[0]), ops[1..])
  }

  ghost function RunBoth(w: Wheel, p: Plain, ops: seq<Op>): (Wheel, Plain)
    requires UnclampedRun(w, ops)
    decreases |ops|
  {
    if ops == [] then (w, p) else RunBoth(Next(w, ops[0]), PlainNext(p, ops[0]), ops[1..])
  }

  // Until a deadline is clamped, the wheel is the plain set: after any run it holds the same items
  // and the next take delivers exactly those that are due.
  lemma {:induction false} UnclampedWheelIsPlainSet(w: Wheel, p: Plain, ops: seq<Op>, now: nat)
    requires IsPlain(w, p) && UnclampedRun(w, ops) && Enabled(RunBoth(w, p, ops).0, Turn(now))
    ensures var (w', p') := RunBoth(w, p, ops);
            IsPlain(w', p') && multiset(TakeAllTimeout(w', now).1) == multiset(PlainDue(p', now))
    decreases |ops|
  {
    if ops == [] {
      PlainTake(w, p, now);
    } else {
      PlainStep(w, p, ops[0]);
      UnclampedWheelIsPlainSet(Next(w, ops[0]), PlainNext(p, ops[0]), ops[1..], now);
    }
  }
}
