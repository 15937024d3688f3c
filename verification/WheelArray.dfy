/** The timing wheel as it is stored: a circular array of intrusive lists with a moving start
    index. Every operation is proved to act on the list of slots of module TimingWheel. */
module WheelArray {
  import opened Sequences
  import opened TimeoutItem
  import opened IntrusiveList
  import opened ListFamily
  import T = TimingWheel

  // Distinct nodes stand for distinct waits, so taking out the node takes out the item.
  lemma ItemsWithout(nodes: seq<Node>, ap: Node)
    requires ap in nodes
    requires forall i, j | 0 <= i < j < |nodes| :: nodes[i] != nodes[j]
    requires forall n | n in nodes && n != ap :: n.item != ap.item
    ensures ItemsOf(Without(nodes, ap)) == Drop(ItemsOf(nodes), ap.item)
  {
    var k := IndexOf(nodes, ap);
    var a, b := ItemsOf(nodes[..k]), ItemsOf(nodes[k + 1..]);
    assert ItemsOf(nodes) == a + [ap.item] + b;
    assert ItemsOf(Without(nodes, ap)) == a + b;
    DropConcat(a + [ap.item], b, ap.item);
    DropConcat(a, [ap.item], ap.item);
    DropAbsent(a, ap.item);
    DropAbsent(b, ap.item);
  }

  // ---- The circular index -------------------------------------------------------------------

  lemma MultiplesApart(p: int, q: int, n: int)
    requires 0 < n && p < q
    ensures p * n + n <= q * n
  {
    assert q * n - p * n == (q - p) * n;
    assert (q - p) * n == n + (q - p - 1) * n;
    assert 0 <= (q - p - 1) * n;
  }

  lemma DivisionUnique(p: int, s: int, q: int, r: int, n: int)
    requires 0 < n && 0 <= r < n && 0 <= s < n && p * n + s == q * n + r
    ensures s == r
  {
    if p < q {
      MultiplesApart(p, q, n);
    } else if q < p {
      MultiplesApart(q, p, n);
    }
  }

  lemma QuotientUnique(a: int, q: int, r: int, n: int)
    requires 0 < n && 0 <= r < n && a == q * n + r
    ensures a % n == r
  {
    DivisionUnique(a / n, a % n, q, r, n);
  }

  // The index that is k places after `at` on the circle, without the division.
  function Around(at: nat, k: nat, n: nat): (r: nat)
    requires at < n && k <= n
    ensures r < n
  {
    if at + k < n then at + k else at + k - n
  }

  lemma IndexIs(start: nat, k: nat, n: nat)
    requires 0 < n && k <= n
    ensures (start + k) % n == Around(start % n, k, n)
  {
    var q, s := start / n, start % n;
    assert start == q * n + s;
    if s + k < n {
      QuotientUnique(start + k, q, s + k, n);
    } else {
      assert (q + 1) * n == q * n + n;
      QuotientUnique(start + k, q + 1, s + k - n, n);
    }
  }

  // ---- The slots that the array shows ---------------------------------------------------------

  // Slot k of the wheel is the list k places after the start index.
  ghost predicate Shows(slots: seq<seq<Item>>, start: nat, contents: seq<seq<Node>>) {
    && start < |slots| == |contents|
    && forall k {:trigger slots[k]} | 0 <= k < |slots| :: ItemsOf(contents[Around(start, k, |contents|)]) == slots[k]
  }

  lemma FiledShows(slots: seq<seq<Item>>, start: nat, contents: seq<seq<Node>>, d: nat, ap: Node)
    requires Shows(slots, start, contents) && d < |slots|
    ensures var idx := Around(start, d, |contents|);
            Shows(slots[d := slots[d] + [ap.item]], start, contents[idx := contents[idx] + [ap]])
  {
    var n := |contents|;
    var idx := Around(start, d, n);
    var slots', contents' := slots[d := slots[d] + [ap.item]], contents[idx := contents[idx] + [ap]];
    forall k | 0 <= k < n ensures ItemsOf(contents'[Around(start, k, n)]) == slots'[k] {
      assert ItemsOf(contents[Around(start, k, n)]) == slots[k];
      if k == d {
        ItemsConcat(contents[idx], [ap]);
        assert ItemsOf([ap]) == [ap.item];
      }
    }
  }

  // `ap` is in list idx alone, and no other filed node stands for its item.
  ghost predicate Sole(contents: seq<seq<Node>>, idx: nat, ap: Node)
    requires idx < |contents|
  {
    && (forall i, j {:trigger contents[idx][i], contents[idx][j]} | 0 <= i < j < |contents[idx]| ::
          contents[idx][i] != contents[idx][j])
    && (forall j | 0 <= j < |contents| && j != idx :: ap !in contents[j])
    && forall j, n | 0 <= j < |contents| && n in contents[j] && n != ap :: n.item != ap.item
  }

  lemma RemovedShows(slots: seq<seq<Item>>, start: nat, contents: seq<seq<Node>>, idx: nat, ap: Node)
    requires Shows(slots, start, contents) && idx < |contents| && ap in contents[idx] && Sole(contents, idx, ap)
    ensures Shows(DropEach(slots, ap.item), start, contents[idx := Without(contents[idx], ap)])
  {
    var n := |contents|;
    var slots', contents' := DropEach(slots, ap.item), contents[idx := Without(contents[idx], ap)];
    forall k | 0 <= k < n ensures ItemsOf(contents'[Around(start, k, n)]) == slots'[k] {
      var nodes := contents[Around(start, k, n)];
      assert ItemsOf(nodes) == slots[k];
      if Around(start, k, n) == idx {
        ItemsWithout(nodes, ap);
      } else {
        DropAbsent(slots[k], ap.item);
      }
    }
  }

  // The first i slots have been emptied, the others are as they were.
  ghost predicate Drained(start: nat, was: seq<seq<Node>>, contents: seq<seq<Node>>, i: nat) {
    && start < |was| == |contents|
    && forall k {:trigger Around(start, k, |was|)} | 0 <= k < |was| ::
         contents[Around(start, k, |was|)] == if k < i then [] else was[Around(start, k, |was|)]
  }

  lemma DrainedOneMore(start: nat, was: seq<seq<Node>>, contents: seq<seq<Node>>, i: nat)
    requires Drained(start, was, contents, i) && i < |was|
    ensures contents[Around(start, i, |was|)] == was[Around(start, i, |was|)]
    ensures Drained(start, was, contents[Around(start, i, |was|) := []], i + 1)
  {
  }

  lemma DrainedMembers(start: nat, was: seq<seq<Node>>, contents: seq<seq<Node>>, i: nat)
    requires Drained(start, was, contents, i)
    ensures Members(contents) <= Members(was)
  {
    forall n | n in Members(contents) ensures n in Members(was) {
      var j :| 0 <= j < |contents| && n in contents[j];
      var k := if start <= j then j - start else j + |was| - start;
      assert Around(start, k, |was|) == j;
    }
  }

  lemma TurnedAt(slots: seq<seq<Item>>, cnt: nat, k: nat)
    requires 0 < cnt <= |slots| && k < |slots|
    ensures T.Turned(slots, cnt)[k] == var j := Around(cnt - 1, k, |slots|); if j < cnt then [] else slots[j]
  {
  }

  lemma TurnedShows(slots: seq<seq<Item>>, start: nat, was: seq<seq<Node>>, contents: seq<seq<Node>>, cnt: nat)
    requires Shows(slots, start, was) && Drained(start, was, contents, cnt) && 0 < cnt <= |slots|
    ensures Shows(T.Turned(slots, cnt), Around(start, cnt - 1, |slots|), contents)
  {
    var n := |slots|;
    forall k | 0 <= k < n
      ensures ItemsOf(contents[Around(Around(start, cnt - 1, n), k, n)]) == T.Turned(slots, cnt)[k]
    {
      var j := Around(cnt - 1, k, n);
      TurnedAt(slots, cnt, k);
      assert Around(Around(start, cnt - 1, n), k, n) == Around(start, j, n);
      assert ItemsOf(was[Around(start, j, n)]) == slots[j];
    }
  }

  // What AddTimeout files, once the origin is set.
  lemma AddIs(w: T.Wheel, x: Item, allNow: nat)
    requires |w.slots| > 0 && 0 < w.ullStart <= allNow <= x.deadline
    ensures var diff := x.deadline - w.ullStart;
            var k := if diff >= |w.slots| then |w.slots| - 1 else diff;
            var (w', ret) := T.AddTimeout(w, x, allNow);
            ret == 0 && w'.slots == w.slots[k := w.slots[k] + [x]] && w'.ullStart == w.ullStart
  {
  }

  lemma FlattenBehind(had: seq<Item>, ss: seq<seq<Item>>, i: nat)
    requires i < |ss|
    ensures had + Flatten(ss[..i]) + ss[i] == had + Flatten(ss[..i + 1])
  {
    FlattenSnoc(ss, i);
  }

  lemma StartedOnce(w: T.Wheel, x: Item, allNow: nat)
    requires |w.slots| > 0 && 0 < allNow
    ensures T.AddTimeout(T.Started(w, allNow), x, allNow) == T.AddTimeout(w, x, allNow)
  {
    assert T.Started(T.Started(w, allNow), allNow) == T.Started(w, allNow);
  }

  // The nodes that were filed still are, or have been moved to the result, and nothing else came in.
  ghost predicate Moved(repr: set<Node>, result: seq<Node>, was: set<Node>, had: seq<Node>) {
    && repr <= was && (forall n | n in was :: n in repr || n in result)
    && forall n | n in result :: n in was || n in had
  }

  lemma TakeIs(w: T.Wheel, allNow: nat)
    requires |w.slots| > 0 && 0 < w.ullStart
    ensures T.TakeAllTimeout(w, allNow) ==
            if allNow < w.ullStart || T.TakeCount(allNow - w.ullStart, |w.slots|) < 0 then (w, [])
            else T.TakeSlots(w, allNow, T.TakeCount(allNow - w.ullStart, |w.slots|))
  {
  }

  lemma TakenOnce(w: T.Wheel, allNow: nat)
    requires |w.slots| > 0 && 0 < allNow
    ensures T.TakeAllTimeout(T.Started(w, allNow), allNow) == T.TakeAllTimeout(w, allNow)
  {
    assert T.Started(T.Started(w, allNow), allNow) == T.Started(w, allNow);
  }

  lemma SomeMember(contents: seq<seq<Node>>, i: nat)
    requires i < |contents|
    ensures contents[i] != [] ==> Members(contents) != {}
  {
    if contents[i] != [] {
      HasMember(contents, i, contents[i][0]);
    }
  }

  // With no node filed every start index shows the same empty slots.
  lemma NothingShown(slots: seq<seq<Item>>, start: nat, contents: seq<seq<Node>>, start': nat)
    requires Shows(slots, start, contents) && Members(contents) == {} && start' < |slots|
    ensures Shows(slots, start', contents)
  {
    var n := |contents|;
    forall i | 0 <= i < n ensures contents[i] == [] {
      SomeMember(contents, i);
    }
    forall k | 0 <= k < n ensures ItemsOf(contents[Around(start', k, n)]) == slots[k] {
      assert ItemsOf(contents[Around(start, k, n)]) == slots[k];
    }
  }

  // apResult joins the family while it is filled, and leaves it at the end.
  lemma WithResult(lists: seq<Link>, contents: seq<seq<Node>>, repr: set<Node>, apResult: Link)
    requires Family(lists, contents, repr) && repr == Members(contents) && apResult.Valid() && apResult !in lists
    ensures var all := repr + set n | n in apResult.nodes;
            && Family(lists + [apResult], contents + [apResult.nodes], all)
            && Members(contents + [apResult.nodes]) == all
  {
    var nodes, all := apResult.nodes, repr + set n | n in apResult.nodes;
    FamilyWithin(lists, contents, repr, all);
    FamilyAddsList(lists, contents, all, apResult);
    forall n | n in all ensures n in Members(contents + [nodes]) {
      if n in nodes {
        assert n in (contents + [nodes])[|contents|];
      } else {
        var i :| 0 <= i < |contents| && n in contents[i];
        assert n in (contents + [nodes])[i];
      }
    }
  }

  lemma WithoutResult(lists: seq<Link>, contents: seq<seq<Node>>, all: set<Node>, apResult: Link)
    requires Family(lists + [apResult], contents + [apResult.nodes], all)
    requires Members(contents + [apResult.nodes]) == all
    ensures Family(lists, contents, Members(contents)) && apResult.Valid()
    ensures forall n | n in all :: n in Members(contents) || n in apResult.nodes
    ensures forall n | n in apResult.nodes :: n in all
  {
    var nodes := apResult.nodes;
    FamilyDropsList(lists, contents, all, apResult, nodes);
    FamilyWithin(lists, contents, all, Members(contents));
    forall n | n in nodes ensures n in Members(contents + [nodes]) {
      assert n in (contents + [nodes])[|contents|];
    }
  }

  ghost function Empties(n: nat): seq<seq<Node>> {
    seq(n, _ => [])
  }

  class Timeout {
    const pItems: array<Link>
    ghost const lists: seq<Link>              // what pItems holds
    var ullStart: nat
    var llStartIdx: nat
    ghost var start: nat                      // the start index within the array
    ghost var wheel: T.Wheel                  // the slots seen from the start index
    ghost var contents: seq<seq<Node>>        // the nodes of the lists
    ghost var repr: set<Node>                 // the nodes that are filed

    ghost predicate Valid()
      reads this, pItems, lists, repr`pPrev, repr`pNext, repr`pLink
    {
      && Stored() && 0 < |lists| < 0x8000_0000
      && Family(lists, contents, repr) && repr == Members(contents)
      && wheel.ullStart == ullStart && (ullStart == 0 ==> repr == {})
      && Shows(wheel.slots, start, contents) && Reduced()
    }

    ghost predicate Reduced()
      requires 0 < |lists|
      reads this
    {
      start == llStartIdx % |lists|
    }

    ghost predicate Stored()
      reads pItems
      ensures Stored() ==> pItems.Length == |lists|
    {
      pItems[..] == lists
    }

    constructor (items: array<Link>, now: nat)
      requires 0 < items.Length < 0x8000_0000 && Family(items[..], Empties(items.Length), {})
      ensures Valid() && pItems == items && lists == items[..] && repr == {}
      ensures wheel == T.Wheel(seq(items.Length, _ => []), now, {})
    {
      pItems, lists, ullStart, llStartIdx, start := items, items[..], now, 0, 0;
      wheel, contents, repr := T.Wheel(seq(items.Length, _ => []), now, {}), Empties(items.Length), {};
    }

    // The index expression of AddTimeout and TakeAllTimeout.
    method IndexAt(k: nat) returns (idx: nat)
      requires Stored() && 0 < |lists| && k < |lists| && Reduced()
      ensures start < |lists| && idx == Around(start, k, |lists|)
    {
      IndexIs(llStartIdx, k, |lists|);
      idx := (llStartIdx + k) % pItems.Length;
    }

    // llStartIdx += cnt - 1
    method Shift(k: nat)
      requires 0 < |lists| && k <= |lists| && Reduced()
      modifies this`llStartIdx, this`start
      ensures old(start) < |lists| && start == Around(old(start), k, |lists|) && Reduced()
    {
      IndexIs(llStartIdx, k, |lists|);
      start := Around(start, k, |lists|);
      llStartIdx := llStartIdx + k;
    }

    twostate lemma Stays()
      requires old(Valid()) && unchanged(this) && unchanged(pItems)
      requires forall l | l in lists :: unchanged(l)
      requires forall n | n in repr :: unchanged(n`pPrev, n`pNext, n`pLink)
      ensures Valid()
    {
      forall i | 0 <= i < |lists| ensures Holds(lists[i], contents[i], repr) {
        assert old(Holds(lists[i], contents[i], repr)) && lists[i] in lists;
      }
    }

    // The lists already hold the new contents: the ghost state follows.
    ghost method Record(wheel: T.Wheel, contents: seq<seq<Node>>, repr: set<Node>)
      requires Stored() && 0 < |lists| < 0x8000_0000 && Reduced()
      requires Family(lists, contents, repr) && repr == Members(contents)
      requires wheel.ullStart == ullStart && (ullStart == 0 ==> repr == {}) && Shows(wheel.slots, start, contents)
      modifies this`wheel, this`contents, this`repr
      ensures Valid() && this.wheel == wheel && this.contents == contents && this.repr == repr
    {
      this.wheel, this.contents, this.repr := wheel, contents, repr;
    }

    // The opening lines of AddTimeout and of TakeAllTimeout.
    method StartUp(allNow: nat)
      requires Valid()
      modifies this`ullStart, this`llStartIdx, this`start, this`wheel
      ensures Valid() && wheel == T.Started(old(wheel), allNow) && (0 < allNow ==> 0 < ullStart)
    {
      if ullStart == 0 {
        NothingShown(wheel.slots, start, contents, 0);
        ullStart := allNow;
        llStartIdx := 0;
        start := 0;
        wheel := T.Started(wheel, allNow);
      }
    }

    method AddTimeout(apItem: Node, allNow: nat) returns (ret: int)
      requires Valid() && 0 < allNow
      modifies this`ullStart, this`llStartIdx, this`start, this`wheel, this`contents, this`repr
      modifies lists`head, lists`tail, lists`nodes, repr`pNext, apItem`pNext, apItem`pPrev, apItem`pLink
      ensures Valid()
      ensures old(apItem.pLink) == null ==> T.AddTimeout(old(wheel), apItem.item, allNow) == (wheel, ret)
      ensures old(apItem.pLink) != null ==> wheel == T.Started(old(wheel), allNow)
      ensures if old(apItem.pLink) == null && ret == 0 then repr == old(repr) + {apItem}
              else repr == old(repr) && apItem.pLink == old(apItem.pLink)
    {
      StartUp(allNow);
      StartedOnce(old(wheel), apItem.item, allNow);
      ret := AddStarted(apItem, allNow);
    }

    // AddTimeout once the origin is set.
    method AddStarted(apItem: Node, allNow: nat) returns (ret: int)
      requires Valid() && 0 < ullStart
      modifies this`wheel, this`contents, this`repr, lists`head, lists`tail, lists`nodes, repr`pNext
      modifies apItem`pNext, apItem`pPrev, apItem`pLink
      ensures Valid()
      ensures old(apItem.pLink) == null ==> T.AddTimeout(old(wheel), apItem.item, allNow) == (wheel, ret)
      ensures old(apItem.pLink) != null ==> wheel == old(wheel)
      ensures if old(apItem.pLink) == null && ret == 0 then repr == old(repr) + {apItem}
              else repr == old(repr) && apItem.pLink == old(apItem.pLink)
    {
      if allNow < ullStart {
        return 390;
      }
      if apItem.item.deadline < allNow {
        return 397;
      }
      var diff := apItem.item.deadline - ullStart;
      AddIs(wheel, apItem.item, allNow);
      ghost var filed := T.AddTimeout(wheel, apItem.item, allNow).0;
      if diff >= pItems.Length {
        diff := pItems.Length - 1;
      }
      FileAt(diff, apItem, filed);
      return 0;
    }

    // The call of AddTail at the end of AddTimeout.
    method FileAt(diff: nat, apItem: Node, ghost filed: T.Wheel)
      requires Valid() && diff < |lists| && 0 < ullStart && filed.ullStart == ullStart
      requires filed.slots == wheel.slots[diff := wheel.slots[diff] + [apItem.item]]
      modifies this`wheel, this`contents, this`repr, lists`head, lists`tail, lists`nodes, repr`pNext
      modifies apItem`pNext, apItem`pPrev, apItem`pLink
      ensures Valid()
      ensures old(apItem.pLink) != null ==>
                wheel == old(wheel) && repr == old(repr) && apItem.pLink == old(apItem.pLink)
      ensures old(apItem.pLink) == null ==> wheel == filed
      ensures old(apItem.pLink) == null ==> repr == old(repr) + {apItem}
    {
      if apItem.pLink == null {
        Append(diff, apItem, filed);
      }
    }

    method Append(diff: nat, apItem: Node, ghost filed: T.Wheel)
      requires Valid() && diff < |lists| && 0 < ullStart && apItem.pLink == null && filed.ullStart == ullStart
      requires filed.slots == wheel.slots[diff := wheel.slots[diff] + [apItem.item]]
      modifies this`wheel, this`contents, this`repr, lists`head, lists`tail, lists`nodes, repr`pNext
      modifies apItem`pNext, apItem`pPrev, apItem`pLink
      ensures Valid() && repr == old(repr) + {apItem} && wheel == filed
    {
      var idx := IndexAt(diff);
      AppendTo(pItems[idx], apItem, lists, contents, idx, repr);
      FiledShows(wheel.slots, start, contents, diff, apItem);
      MembersAppend(contents, idx, apItem);
      Record(filed, contents[idx := contents[idx] + [apItem]], repr + {apItem});
    }

    // RemoveFromLink on a node of the wheel. Distinct nodes stand for distinct waits.
    method Remove(ap: Node)
      requires Valid() && ap in repr
      requires forall n | n in repr && n != ap :: n.item != ap.item
      modifies this`wheel, this`contents, this`repr, lists`head, lists`tail, lists`nodes
      modifies repr`pNext, repr`pPrev, repr`pLink
      ensures Valid() && ap.pLink == null && repr == old(repr) - {ap}
      ensures wheel == T.Remove(old(wheel), ap.item)
    {
      ghost var idx := IndexIn(ap);
      IsSole(idx, ap);
      TakeOff(ap, lists, contents, idx, repr);
      TookOff(ap, idx);
    }

    ghost function IndexIn(ap: Node): (idx: nat)
      requires Valid() && ap in repr
      reads this, pItems, lists, repr`pPrev, repr`pNext, repr`pLink
      ensures idx < |contents| && ap in contents[idx]
    {
      var idx: nat :| idx < |contents| && ap in contents[idx];
      idx
    }

    // The node is out of list idx, and the ghost state still has it.
    ghost predicate Leaving(ap: Node, idx: nat)
      reads this, pItems, lists, repr`pPrev, repr`pNext, repr`pLink
    {
      && Stored() && 0 < |lists| < 0x8000_0000 && Reduced() && wheel.ullStart == ullStart
      && repr == Members(contents) && (ullStart == 0 ==> repr == {}) && Shows(wheel.slots, start, contents)
      && idx < |contents| && ap in contents[idx] && Sole(contents, idx, ap)
      && Family(lists, contents[idx := Without(contents[idx], ap)], repr)
    }

    // The node has left its list: the ghost state follows.
    ghost method TookOff(ap: Node, idx: nat)
      requires Leaving(ap, idx)
      modifies this`wheel, this`contents, this`repr
      ensures Valid() && repr == old(repr) - {ap} && wheel == T.Remove(old(wheel), ap.item)
    {
      WithoutIsGone(contents[idx], ap);
      RemovedShows(wheel.slots, start, contents, idx, ap);
      MembersWithout(contents, idx, ap);
      FamilyWithin(lists, contents[idx := Without(contents[idx], ap)], repr, repr - {ap});
      Record(T.Remove(wheel, ap.item), contents[idx := Without(contents[idx], ap)], repr - {ap});
    }

    lemma Owned(n: Node)
      requires Valid() && n in repr
      ensures n.pLink in lists
    {
      OnlyOwner(lists, contents, repr, IndexIn(n), n);
    }

    lemma IsSole(idx: nat, ap: Node)
      requires Valid() && idx < |contents| && ap in contents[idx]
      requires forall n | n in repr && n != ap :: n.item != ap.item
      ensures Sole(contents, idx, ap)
    {
      OnlyOwner(lists, contents, repr, idx, ap);
      assert Holds(lists[idx], contents[idx], repr);
      forall j, n | 0 <= j < |contents| && n in contents[j] && n != ap ensures n.item != ap.item {
        assert n in Members(contents);
      }
    }

    // apResult receives what the elapsed slots hold, slot by slot. The count must not wrap to
    // exactly zero, which would move the start index backwards.
    method TakeAllTimeout(allNow: nat, apResult: Link)
      requires Valid() && 0 < allNow && apResult.Valid() && apResult !in lists
      requires !T.WrapsToZero(T.Started(wheel, allNow), allNow)
      modifies this`ullStart, this`llStartIdx, this`start, this`wheel, this`contents, this`repr
      modifies lists`head, lists`tail, lists`nodes, apResult`head, apResult`tail, apResult`nodes
      modifies repr`pNext, repr`pPrev, repr`pLink
      modifies apResult.nodes`pNext, apResult.nodes`pPrev, apResult.nodes`pLink
      ensures Valid() && apResult.Valid() && Moved(repr, apResult.nodes, old(repr), old(apResult.nodes))
      ensures wheel == T.TakeAllTimeout(old(wheel), allNow).0
      ensures ItemsOf(apResult.nodes) == old(ItemsOf(apResult.nodes)) + T.TakeAllTimeout(old(wheel), allNow).1
    {
      StartUp(allNow);
      TakenOnce(old(wheel), allNow);
      TakeStarted(allNow, apResult);
    }

    // TakeAllTimeout once the origin is set.
    method TakeStarted(allNow: nat, apResult: Link)
      requires Valid() && 0 < allNow && apResult.Valid() && apResult !in lists
      requires 0 < ullStart && !T.WrapsToZero(wheel, allNow)
      modifies this`ullStart, this`llStartIdx, this`start, this`wheel, this`contents, this`repr
      modifies lists`head, lists`tail, lists`nodes, apResult`head, apResult`tail, apResult`nodes
      modifies repr`pNext, repr`pPrev, repr`pLink
      modifies apResult.nodes`pNext, apResult.nodes`pPrev, apResult.nodes`pLink
      ensures Valid() && apResult.Valid() && Moved(repr, apResult.nodes, old(repr), old(apResult.nodes))
      ensures wheel == T.TakeAllTimeout(old(wheel), allNow).0
      ensures ItemsOf(apResult.nodes) == old(ItemsOf(apResult.nodes)) + T.TakeAllTimeout(old(wheel), allNow).1
    {
      TakeIs(wheel, allNow);
      if allNow < ullStart {
        return;
      }
      var cnt := Count(allNow);
      if cnt < 0 {
        return;
      }
      Turn(cnt, allNow, apResult);
    }

    method Count(allNow: nat) returns (cnt: int)
      requires Stored() && ullStart <= allNow
      ensures cnt == T.TakeCount(allNow - ullStart, |lists|)
    {
      cnt := T.TruncateToInt(allNow - ullStart + 1);
      if cnt > pItems.Length {
        cnt := pItems.Length;
      }
    }

    // The loop of TakeAllTimeout and the two lines after it: the start index follows the origin.
    method Turn(cnt: nat, allNow: nat, apResult: Link)
      requires Valid() && 0 < allNow && 0 < cnt <= |lists| && apResult.Valid() && apResult !in lists
      modifies this`ullStart, this`llStartIdx, this`start, this`wheel, this`contents, this`repr
      modifies lists`head, lists`tail, lists`nodes, apResult`head, apResult`tail, apResult`nodes
      modifies repr`pNext, repr`pPrev, repr`pLink
      modifies apResult.nodes`pNext, apResult.nodes`pPrev, apResult.nodes`pLink
      ensures Valid() && apResult.Valid() && Moved(repr, apResult.nodes, old(repr), old(apResult.nodes))
      ensures wheel == T.TakeSlots(old(wheel), allNow, cnt).0
      ensures ItemsOf(apResult.nodes) == old(ItemsOf(apResult.nodes)) + T.TakeSlots(old(wheel), allNow, cnt).1
    {
      ghost var had := apResult.nodes;
      ghost var left := TakeSlots(cnt, apResult, repr + set n | n in had);
      Advance(cnt, allNow, left);
    }

    method Advance(cnt: nat, allNow: nat, ghost left: seq<seq<Node>>)
      requires Stored() && 0 < |lists| < 0x8000_0000 && Reduced() && 0 < cnt <= |lists| && 0 < allNow
      requires Shows(wheel.slots, start, contents) && Drained(start, contents, left, cnt)
      requires Family(lists, left, Members(left))
      modifies this`ullStart, this`llStartIdx, this`start, this`wheel, this`contents, this`repr
      ensures Valid() && repr == Members(left)
      ensures wheel == old(wheel).(ullStart := allNow, slots := T.Turned(old(wheel).slots, cnt))
    {
      TurnedShows(wheel.slots, start, contents, left, cnt);
      ullStart := allNow;
      Shift(cnt - 1);
      Record(wheel.(ullStart := allNow, slots := T.Turned(wheel.slots, cnt)), left, Members(left));
    }

    // The loop of TakeAllTimeout. What is left in the lists is the ghost result.
    method TakeSlots(cnt: nat, apResult: Link, ghost all: set<Node>) returns (ghost left: seq<seq<Node>>)
      requires Valid() && cnt <= |lists| && apResult.Valid() && apResult !in lists
      requires all == repr + set n | n in apResult.nodes
      modifies lists`head, lists`tail, lists`nodes, apResult`head, apResult`tail, apResult`nodes
      modifies all`pNext, all`pPrev, all`pLink
      ensures Family(lists, left, Members(left)) && apResult.Valid() && Drained(start, contents, left, cnt)
      ensures Moved(Members(left), apResult.nodes, repr, old(apResult.nodes))
      ensures ItemsOf(apResult.nodes) == old(ItemsOf(apResult.nodes)) + Flatten(wheel.slots[..cnt])
    {
      WithResult(lists, contents, repr, apResult);
      left := DrainSlots(cnt, apResult, all);
      WithoutResult(lists, left, all, apResult);
      DrainedMembers(start, contents, left, cnt);
    }

    method DrainSlots(cnt: nat, apResult: Link, ghost all: set<Node>) returns (ghost left: seq<seq<Node>>)
      requires Stored() && 0 < |lists| == |contents| && cnt <= |lists| && Reduced()
      requires Shows(wheel.slots, start, contents)
      requires Family(lists + [apResult], contents + [apResult.nodes], all)
      requires Members(contents + [apResult.nodes]) == all
      modifies lists`head, lists`tail, lists`nodes, apResult`head, apResult`tail, apResult`nodes
      modifies all`pNext, all`pPrev, all`pLink
      ensures Family(lists + [apResult], left + [apResult.nodes], all) && Drained(start, contents, left, cnt)
      ensures Members(left + [apResult.nodes]) == all
      ensures ItemsOf(apResult.nodes) == old(ItemsOf(apResult.nodes)) + Flatten(wheel.slots[..cnt])
    {
      ghost var was := ItemsOf(apResult.nodes);
      left := contents;
      for i := 0 to cnt
        invariant Family(lists + [apResult], left + [apResult.nodes], all) && Drained(start, contents, left, i)
        invariant Members(left + [apResult.nodes]) == all
        invariant ItemsOf(apResult.nodes) == was + Flatten(wheel.slots[..i])
      {
        left := TakeSlot(i, apResult, left, all);
        FlattenBehind(was, wheel.slots, i);
      }
    }

    // One turn of the loop: Join of slot i into apResult.
    method TakeSlot(i: nat, apResult: Link, ghost left: seq<seq<Node>>, ghost all: set<Node>)
      returns (ghost left': seq<seq<Node>>)
      requires Stored() && 0 < |lists| == |contents| && i < |lists| && Shows(wheel.slots, start, contents) && Reduced()
      requires Family(lists + [apResult], left + [apResult.nodes], all) && Drained(start, contents, left, i)
      modifies lists`head, lists`tail, lists`nodes, apResult`head, apResult`tail, apResult`nodes
      modifies all`pNext, all`pPrev, all`pLink
      ensures Family(lists + [apResult], left' + [apResult.nodes], all)
      ensures Drained(start, contents, left', i + 1)
      ensures Members(left' + [apResult.nodes]) == old(Members(left + [apResult.nodes]))
      ensures ItemsOf(apResult.nodes) == old(ItemsOf(apResult.nodes)) + wheel.slots[i]
    {
      var idx := IndexAt(i);
      ghost var n, had := |lists|, apResult.nodes;
      assert ItemsOf(contents[idx]) == wheel.slots[i];
      DrainedOneMore(start, contents, left, i);
      ItemsConcat(had, left[idx]);
      MembersJoined(left + [had], n, idx);
      JoinInto(apResult, pItems[idx], lists + [apResult], left + [had], n, idx, all);
      left' := left[idx := []];
      assert Joined(left + [had], n, idx) == left' + [had + left[idx]];
      FamilyDropsList(lists, left', all, apResult, had + left[idx]);
    }
  }

  // An array of empty lists.
  method AllocItems(n: nat) returns (items: array<Link>)
    requires 0 < n
    ensures fresh(items) && items.Length == n && Family(items[..], Empties(n), {})
    ensures forall l | l in items[..] :: fresh(l)
  {
    var first := new Link();
    items := new Link[n](_ => first);
    for i := 1 to n
      invariant Family(items[..i], Empties(i), {}) && forall l | l in items[..i] :: fresh(l)
    {
      var link := new Link();
      FamilyAddsList(items[..i], Empties(i), {}, link);
      items[i] := link;
      assert items[..i + 1] == items[..i] + [link];
      assert Empties(i + 1) == Empties(i) + [[]];
    }
    assert items[..n] == items[..];
  }

  // AllocTimeout.
  method AllocTimeout(iSize: nat, now: nat) returns (t: Timeout)
    requires 0 < iSize < 0x8000_0000
    ensures t.Valid() && t.repr == {} && fresh(t) && fresh(t.pItems) && forall l | l in t.lists :: fresh(l)
    ensures t.wheel == T.Wheel(seq(iSize, _ => []), now, {})
  {
    var items := AllocItems(iSize);
    t := new Timeout(items, now);
  }
}
