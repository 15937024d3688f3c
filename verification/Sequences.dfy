/** Sequence and set vocabulary shared by the models. */
module Sequences {

  function Flatten<T>(ss: seq<seq<T>>): seq<T> {
    if ss == [] then [] else ss[0] + Flatten(ss[1..])
  }

  // All occurrences of x taken out, the rest in order.
  function Drop<T(==)>(s: seq<T>, x: T): seq<T> {
    if s == [] then [] else (if s[0] == x then [] else [s[0]]) + Drop(s[1..], x)
  }

  function DropEach<T(==)>(ss: seq<seq<T>>, x: T): (r: seq<seq<T>>)
    ensures |r| == |ss|
  {
    seq(|ss|, k requires 0 <= k < |ss| => Drop(ss[k], x))
  }

  lemma {:induction false} FlattenConcat<T>(a: seq<seq<T>>, b: seq<seq<T>>)
    ensures Flatten(a + b) == Flatten(a) + Flatten(b)
  {
    if a == [] {
      assert a + b == b;
    } else {
      FlattenConcat(a[1..], b);
      assert (a + b)[0] == a[0] && (a + b)[1..] == a[1..] + b;
      assert a[0] + (Flatten(a[1..]) + Flatten(b)) == (a[0] + Flatten(a[1..])) + Flatten(b);
    }
  }

  lemma {:induction false} FlattenNothing<T>(ss: seq<seq<T>>)
    requires forall k {:trigger ss[k]} | 0 <= k < |ss| :: ss[k] == []
    ensures Flatten(ss) == []
  {
    if ss != [] {
      FlattenNothing(ss[1..]);
    }
  }

  lemma FlattenPadded<T>(before: seq<seq<T>>, ss: seq<seq<T>>, after: seq<seq<T>>)
    requires Flatten(before) == [] && Flatten(after) == []
    ensures Flatten(before + ss + after) == Flatten(ss)
  {
    FlattenConcat(before + ss, after);
    FlattenConcat(before, ss);
  }

  lemma FlattenSplit<T>(ss: seq<seq<T>>, k: nat)
    requires k <= |ss|
    ensures Flatten(ss) == Flatten(ss[..k]) + Flatten(ss[k..])
  {
    assert ss == ss[..k] + ss[k..];
    FlattenConcat(ss[..k], ss[k..]);
  }

  lemma FlattenSnoc<T>(ss: seq<seq<T>>, k: nat)
    requires k < |ss|
    ensures Flatten(ss[..k + 1]) == Flatten(ss[..k]) + ss[k]
  {
    assert ss[..k + 1] == ss[..k] + [ss[k]];
    FlattenConcat(ss[..k], [ss[k]]);
    assert Flatten([ss[k]]) == ss[k];
  }

  // The slot in which an element of the flattened sequence is found.
  lemma {:induction false} SlotOf<T>(ss: seq<seq<T>>, x: T) returns (k: nat)
    requires x in Flatten(ss)
    ensures k < |ss| && x in ss[k]
  {
    if x in ss[0] {
      k := 0;
    } else {
      k := SlotOf(ss[1..], x);
      k := k + 1;
    }
  }

  lemma {:induction false} InFlatten<T>(ss: seq<seq<T>>, k: nat, x: T)
    requires k < |ss| && x in ss[k]
    ensures x in Flatten(ss)
  {
    if k > 0 {
      InFlatten(ss[1..], k - 1, x);
    }
  }

  lemma FlattenAppendAt<T>(ss: seq<seq<T>>, k: nat, x: T)
    requires k < |ss|
    ensures multiset(Flatten(ss[k := ss[k] + [x]])) == multiset(Flatten(ss)) + multiset{x}
  {
    var a, b := ss[..k], ss[k + 1..];
    assert ss == a + [ss[k]] + b;
    assert ss[k := ss[k] + [x]] == a + [ss[k] + [x]] + b;
    FlattenConcat(a + [ss[k]], b);
    FlattenConcat(a, [ss[k]]);
    FlattenConcat(a + [ss[k] + [x]], b);
    FlattenConcat(a, [ss[k] + [x]]);
    assert Flatten([ss[k]]) == ss[k] && Flatten([ss[k] + [x]]) == ss[k] + [x];
  }

  lemma {:induction false} DropConcat<T>(a: seq<T>, b: seq<T>, x: T)
    ensures Drop(a + b, x) == Drop(a, x) + Drop(b, x)
  {
    if a == [] {
      assert a + b == b;
    } else {
      DropConcat(a[1..], b, x);
      var head := if a[0] == x then [] else [a[0]];
      assert (a + b)[0] == a[0] && (a + b)[1..] == a[1..] + b;
      assert head + (Drop(a[1..], x) + Drop(b, x)) == (head + Drop(a[1..], x)) + Drop(b, x);
    }
  }

  lemma {:induction false} DropMultiset<T>(s: seq<T>, x: T)
    ensures multiset(Drop(s, x)) == multiset(s)[x := 0]
  {
    if s != [] {
      DropMultiset(s[1..], x);
      assert s == [s[0]] + s[1..];
    }
  }

  lemma DropKeepsOthers<T>(s: seq<T>, x: T)
    ensures forall y :: y in Drop(s, x) <==> y in s && y != x
  {
    DropMultiset(s, x);
    assert forall y :: y in Drop(s, x) <==> y in multiset(Drop(s, x));
    assert forall y :: y in s <==> y in multiset(s);
  }

  lemma {:induction false} DropAbsent<T>(s: seq<T>, x: T)
    requires x !in s
    ensures Drop(s, x) == s
  {
    if s != [] {
      DropAbsent(s[1..], x);
      assert s == [s[0]] + s[1..];
    }
  }

  lemma {:induction false} FlattenDrop<T>(ss: seq<seq<T>>, x: T)
    ensures Flatten(DropEach(ss, x)) == Drop(Flatten(ss), x)
  {
    if ss != [] {
      assert DropEach(ss, x)[1..] == DropEach(ss[1..], x);
      FlattenDrop(ss[1..], x);
      DropConcat(ss[0], Flatten(ss[1..]), x);
    }
  }

  lemma Member<T>(s: set<T>) returns (x: T)
    requires s != {}
    ensures x in s
  {
    x :| x in s;
  }
}
