/** The per-coroutine environment of libco/co_hook_sys_call.cpp: a sorted list of names, compacted
    in place, of which every coroutine that touches it gets its own copy. */
module CoSysEnv {

  datatype Option<T> = None | Some(value: T)

  // A name with its value; None is the null pointer.
  datatype Entry = Entry(name: string, value: Option<string>)

  // ---- The order of strcmp ---------------------------------------------------------------

  predicate Less(a: string, b: string) {
    b != "" && (a == "" || a[0] < b[0] || (a[0] == b[0] && Less(a[1..], b[1..])))
  }

  lemma {:induction false} LessTotal(a: string, b: string)
    ensures a == b || Less(a, b) || Less(b, a)
  {
    if a != "" && b != "" && a[0] == b[0] {
      LessTotal(a[1..], b[1..]);
      assert a[1..] == b[1..] ==> a == [a[0]] + a[1..] == b;
    }
  }

  lemma {:induction false} LessAsymmetric(a: string, b: string)
    requires Less(a, b)
    ensures a != b && !Less(b, a)
  {
    if a != "" && a[0] == b[0] {
      LessAsymmetric(a[1..], b[1..]);
    }
  }

  lemma {:induction false} LessTransitive(a: string, b: string, c: string)
    requires Less(a, b) && Less(b, c)
    ensures Less(a, c)
  {
    if a != "" && a[0] == b[0] && b[0] == c[0] {
      LessTransitive(a[1..], b[1..], c[1..]);
    }
  }

  predicate AtMost(a: string, b: string) {
    a == b || Less(a, b)
  }

  ghost predicate Sorted(s: seq<Entry>) {
    forall i, j {:trigger AtMost(s[i].name, s[j].name)} | 0 <= i < j < |s| :: AtMost(s[i].name, s[j].name)
  }

  ghost predicate Increasing(s: seq<Entry>) {
    forall i, j {:trigger Less(s[i].name, s[j].name)} | 0 <= i < j < |s| :: Less(s[i].name, s[j].name)
  }

  function Names(s: seq<Entry>): set<string> {
    if s == [] then {} else Names(s[..|s| - 1]) + {s[|s| - 1].name}
  }

  lemma {:induction false} InNames(s: seq<Entry>, n: string)
    ensures n in Names(s) <==> exists i :: 0 <= i < |s| && s[i].name == n
  {
    if s != [] {
      var before := s[..|s| - 1];
      InNames(before, n);
      assert (exists i :: 0 <= i < |before| && before[i].name == n) ==> exists i :: 0 <= i < |s| && s[i].name == n by {
        if i :| 0 <= i < |before| && before[i].name == n {
          assert s[i].name == n;
        }
      }
      if n !in Names(before) {
        assert forall i | 0 <= i < |before| :: before[i].name != n && s[i].name != n;
      }
    }
  }

  // ---- co_set_env_list -----------------------------------------------------------------------

  // The names that are kept: those that are neither null nor empty (lines 783-789).
  function Collected(names: seq<Option<string>>): seq<Entry> {
    if names == [] then []
    else
      var last := names[|names| - 1];
      Collected(names[..|names| - 1]) +
      if last.Some? && last.value != "" then [Entry(last.value, None)] else []
  }

  // One entry for each run of equal names.
  function Runs(s: seq<Entry>): (r: seq<Entry>)
    requires s != []
    ensures r != []
  {
    if |s| == 1 then s
    else
      var r := Runs(s[..|s| - 1]);
      if r[|r| - 1].name == s[|s| - 1].name then r else r + [s[|s| - 1]]
  }

  // In a sorted list that leaves the distinct names, in increasing order.
  lemma {:induction false} RunsOfSorted(s: seq<Entry>)
    requires s != [] && Sorted(s)
    ensures Increasing(Runs(s)) && Names(Runs(s)) == Names(s)
    ensures Runs(s)[|Runs(s)| - 1].name == s[|s| - 1].name
    ensures forall e | e in Runs(s) :: e in s
  {
    if |s| > 1 {
      var before, e := s[..|s| - 1], s[|s| - 1];
      RunsOfSorted(before);
      var r := Runs(before);
      assert s == before + [e];
      assert AtMost(s[|s| - 2].name, e.name);
      NamesSnoc(before, e);
      NamesSnoc(r, e);
      if r[|r| - 1].name != e.name {
        ExtendIncreasing(r, e);
      }
    }
  }

  lemma RunsStep(s: seq<Entry>, i: nat, r: seq<Entry>)
    requires 0 < i < |s| && r == Runs(s[..i])
    ensures Runs(s[..i + 1]) == if r[|r| - 1].name == s[i].name then r else r + [s[i]]
  {
    assert s[..i + 1][..i] == s[..i];
  }

  // Lines 800-803.
  method MoveTo(data: array<Entry>, lp: nat, lq: nat)
    requires lp <= lq < data.Length
    modifies data
    ensures data[lp] == old(data[lq]) && forall k | 0 <= k < data.Length && k != lp :: data[k] == old(data[k])
  {
    if lq != lp {
      data[lp] := data[lq];
    }
  }

  // An entry with a name of its own moves behind those that are kept.
  method KeepIfNew(data: array<Entry>, lp: nat, lq: nat) returns (lp': nat)
    requires lp < lq < data.Length
    modifies data
    ensures lp <= lp' <= lq && forall k | lq < k < data.Length :: data[k] == old(data[k])
    ensures var r, e := old(data[..lp + 1]), old(data[lq]);
            data[..lp' + 1] == if r[lp].name == e.name then r else r + [e]
  {
    ghost var r, e := data[..lp + 1], data[lq];
    lp' := lp;
    if data[lp].name != data[lq].name {
      lp' := lp + 1;
      MoveTo(data, lp', lq);
      assert data[..lp' + 1] == r + [e];
    }
  }

  // The loop of lines 793-807.
  method Dedupe(data: array<Entry>, cnt: nat) returns (n: nat)
    requires 1 < cnt <= data.Length
    modifies data
    ensures n <= cnt && data[..n] == Runs(old(data[..cnt]))
  {
    ghost var was := data[..cnt];
    var lp, lq := 0, 1;
    for i := 1 to cnt
      invariant lq == i && lp < lq
      invariant forall k | lq <= k < cnt :: data[k] == was[k]
      invariant data[..lp + 1] == Runs(was[..i])
    {
      RunsStep(was, i, data[..lp + 1]);
      lp := KeepIfNew(data, lp, lq);
      lq := lq + 1;
    }
    assert was[..cnt] == was;
    n := lp + 1;
  }

  lemma NamesSnoc(s: seq<Entry>, e: Entry)
    ensures Names(s + [e]) == Names(s) + {e.name}
  {
    assert (s + [e])[..|s|] == s;
  }

  // Appending an entry that is above the last one.
  lemma ExtendIncreasing(s: seq<Entry>, e: Entry)
    requires s != [] && Increasing(s) && Less(s[|s| - 1].name, e.name)
    ensures Increasing(s + [e])
  {
    forall i | 0 <= i < |s| ensures Less(s[i].name, e.name) {
      if i < |s| - 1 {
        LessTransitive(s[i].name, s[|s| - 1].name, e.name);
      }
    }
  }

  // ---- bsearch -----------------------------------------------------------------------------

  // In an increasing array at most one entry matches, and halving finds it; the array is a copy of data.
  method BSearch(arr: seq<Entry>, name: string, ghost data: seq<Entry>) returns (found: bool, e: nat)
    requires Increasing(data) && SameNames(arr, data)
    ensures found <==> name in Names(data)
    ensures found ==> e < |arr| && arr[e].name == name
  {
    IncreasingOfSame(arr, data);
    NamesOfSame(arr, data);
    InNames(arr, name);
    var lo, hi := 0, |arr|;
    while lo < hi
      invariant 0 <= lo <= hi <= |arr|
      invariant forall k | 0 <= k < lo :: arr[k].name != name
      invariant forall k | hi <= k < |arr| :: arr[k].name != name
    {
      var mid := (lo + hi) / 2;
      if arr[mid].name == name {
        return true, mid;
      } else if Less(arr[mid].name, name) {
        BelowIsOut(arr, mid, name);
        lo := mid + 1;
      } else {
        LessTotal(arr[mid].name, name);
        AboveIsOut(arr, mid, name);
        hi := mid;
      }
    }
    found, e := false, 0;
  }

  lemma BelowIsOut(arr: seq<Entry>, mid: nat, name: string)
    requires Increasing(arr) && mid < |arr| && Less(arr[mid].name, name)
    ensures forall k | 0 <= k <= mid :: arr[k].name != name
  {
    forall k | 0 <= k <= mid ensures arr[k].name != name {
      if k < mid {
        LessTransitive(arr[k].name, arr[mid].name, name);
      }
      LessAsymmetric(arr[k].name, name);
    }
  }

  lemma AboveIsOut(arr: seq<Entry>, mid: nat, name: string)
    requires Increasing(arr) && mid < |arr| && Less(name, arr[mid].name)
    ensures forall k | mid <= k < |arr| :: arr[k].name != name
  {
    forall k | mid <= k < |arr| ensures arr[k].name != name {
      if mid < k {
        LessTransitive(name, arr[mid].name, arr[k].name);
      }
      LessAsymmetric(name, arr[k].name);
    }
  }

  // ---- The reference: one private map per coroutine --------------------------------------------

  type View = map<string, Option<string>>

  datatype Op =
    | SetEnv(n: string, value: Option<string>, overwrite: bool)
    | UnsetEnv(n: string)
    | GetEnv(n: string)

  // What an operation on a listed name does to the caller's own map; other names go to the system.
  function Effect(v: View, op: Op): View {
    if op.n !in v then v
    else match op
      case SetEnv(n, value, overwrite) => if overwrite || v[n].None? then v[n := value] else v
      case UnsetEnv(n) => v[n := None]
      case GetEnv(_) => v
  }

  type Views = map<nat, View>

  function Blank(names: set<string>): View {
    map n | n in names :: None
  }

  function ViewOf(vs: Views, co: nat, names: set<string>): View {
    if co in vs then vs[co] else Blank(names)
  }

  // One operation by one coroutine, the only one whose map changes.
  function Step(vs: Views, names: set<string>, co: nat, op: Op): Views {
    vs[co := Effect(ViewOf(vs, co, names), op)]
  }

  // Operations of several coroutines in any interleaving.
  function RunAll(vs: Views, names: set<string>, ops: seq<(nat, Op)>): Views {
    if ops == [] then vs
    else
      var last := ops[|ops| - 1];
      Step(RunAll(vs, names, ops[..|ops| - 1]), names, last.0, last.1)
  }

  function OwnOps(ops: seq<(nat, Op)>, co: nat): seq<Op> {
    if ops == [] then []
    else OwnOps(ops[..|ops| - 1], co) + if ops[|ops| - 1].0 == co then [ops[|ops| - 1].1] else []
  }

  function RunOne(v: View, ops: seq<Op>): View {
    if ops == [] then v else Effect(RunOne(v, ops[..|ops| - 1]), ops[|ops| - 1])
  }

  // Whatever the others do in between, a coroutine sees the result of its own operations alone.
  lemma {:induction false} NoInterference(vs: Views, names: set<string>, ops: seq<(nat, Op)>, co: nat)
    ensures ViewOf(RunAll(vs, names, ops), co, names) == RunOne(ViewOf(vs, co, names), OwnOps(ops, co))
  {
    if ops != [] {
      var before, last := ops[..|ops| - 1], ops[|ops| - 1];
      NoInterference(vs, names, before, co);
      var own := OwnOps(before, co);
      if last.0 == co {
        assert OwnOps(ops, co) == own + [last.1];
        assert (own + [last.1])[..|own|] == own;
      } else {
        assert OwnOps(ops, co) == own;
      }
    }
  }

  // What getenv should find for a name after these operations: the last value set, unless it was set
  // without overwriting something or unset since.
  function Latest(ops: seq<Op>, n: string): Option<string> {
    if ops == [] then None
    else
      var before, last := Latest(ops[..|ops| - 1], n), ops[|ops| - 1];
      if last.n != n || last.GetEnv? then before
      else if last.UnsetEnv? then None
      else if last.overwrite || before.None? then last.value
      else before
  }

  lemma {:induction false} LatestIsShown(names: set<string>, ops: seq<Op>, n: string)
    ensures var v := RunOne(Blank(names), ops); v.Keys == names && (n in names ==> v[n] == Latest(ops, n))
  {
    if ops != [] {
      LatestIsShown(names, ops[..|ops| - 1], n);
    }
  }

  // In any interleaving from the start, a coroutine finds for every listed name what it has set last.
  lemma EveryoneFindsTheirOwn(names: set<string>, ops: seq<(nat, Op)>, co: nat, n: string)
    requires n in names
    ensures var v := ViewOf(RunAll(map[], names, ops), co, names); n in v && v[n] == Latest(OwnOps(ops, co), n)
  {
    NoInterference(map[], names, ops, co);
    LatestIsShown(names, OwnOps(ops, co), n);
  }

  // ---- The code ------------------------------------------------------------------------------

  // What an array of entries shows.
  function ToMap(s: seq<Entry>): View {
    if s == [] then map[] else ToMap(s[..|s| - 1])[s[|s| - 1].name := s[|s| - 1].value]
  }

  function NameList(s: seq<Entry>): (r: seq<string>)
    ensures |r| == |s|
  {
    if s == [] then [] else NameList(s[..|s| - 1]) + [s[|s| - 1].name]
  }

  // A private copy lists the names of the global list in the same order.
  predicate SameNames(arr: seq<Entry>, data: seq<Entry>) {
    NameList(arr) == NameList(data)
  }

  lemma {:induction false} NameListAt(s: seq<Entry>, i: nat)
    requires i < |s|
    ensures NameList(s)[i] == s[i].name
  {
    if i < |s| - 1 {
      NameListAt(s[..|s| - 1], i);
    }
  }

  lemma SameNamesMeans(arr: seq<Entry>, data: seq<Entry>)
    requires SameNames(arr, data)
    ensures |arr| == |data| && forall i | 0 <= i < |arr| :: arr[i].name == data[i].name
  {
    assert |NameList(arr)| == |arr| && |NameList(data)| == |data|;
    forall i | 0 <= i < |arr| ensures arr[i].name == data[i].name {
      NameListAt(arr, i);
      NameListAt(data, i);
    }
  }

  lemma {:induction false} ToMapKeys(s: seq<Entry>)
    ensures ToMap(s).Keys == Names(s)
  {
    if s != [] {
      ToMapKeys(s[..|s| - 1]);
    }
  }

  // Every entry of an increasing array is shown, none hides another.
  lemma {:induction false} ToMapAt(s: seq<Entry>, i: nat)
    requires Increasing(s) && i < |s|
    ensures s[i].name in ToMap(s) && ToMap(s)[s[i].name] == s[i].value
  {
    if i < |s| - 1 {
      IncreasingPrefix(s, |s| - 1);
      ToMapAt(s[..|s| - 1], i);
      LessAsymmetric(s[i].name, s[|s| - 1].name);
    }
  }

  lemma IncreasingPrefix(s: seq<Entry>, n: nat)
    requires Increasing(s) && n <= |s|
    ensures Increasing(s[..n])
  {
    forall i, j | 0 <= i < j < n ensures Less(s[..n][i].name, s[..n][j].name) {
      assert Less(s[i].name, s[j].name);
    }
  }

  lemma {:induction false} NamesOfSame(arr: seq<Entry>, data: seq<Entry>)
    requires SameNames(arr, data)
    ensures Names(arr) == Names(data)
  {
    SameNamesMeans(arr, data);
    forall n ensures n in Names(arr) <==> n in Names(data) {
      InNames(arr, n);
      InNames(data, n);
    }
  }

  lemma IncreasingOfSame(arr: seq<Entry>, data: seq<Entry>)
    requires SameNames(arr, data) && Increasing(data)
    ensures Increasing(arr)
  {
    SameNamesMeans(arr, data);
    forall i, j | 0 <= i < j < |arr| ensures Less(arr[i].name, arr[j].name) {
      assert Less(data[i].name, data[j].name);
    }
  }

  lemma {:induction false} FreshShows(data: seq<Entry>)
    requires forall e | e in data :: e.value.None?
    ensures ToMap(data) == Blank(Names(data))
  {
    if data != [] {
      FreshShows(data[..|data| - 1]);
      assert data[|data| - 1] in data;
    }
  }

  function PutEntry(arr: seq<Entry>, e: nat, value: Option<string>): seq<Entry>
    requires e < |arr|
  {
    arr[e := arr[e].(value := value)]
  }

  // Overwriting one value in an increasing array changes what is shown for that name only.
  lemma {:induction false} PutShows(arr: seq<Entry>, e: nat, value: Option<string>)
    requires Increasing(arr) && e < |arr|
    ensures NameList(PutEntry(arr, e, value)) == NameList(arr)
    ensures ToMap(PutEntry(arr, e, value)) == ToMap(arr)[arr[e].name := value]
  {
    var before, put := arr[..|arr| - 1], PutEntry(arr, e, value);
    if e == |arr| - 1 {
      assert put[..|arr| - 1] == before;
    } else {
      IncreasingPrefix(arr, |arr| - 1);
      PutShows(before, e, value);
      assert put[..|arr| - 1] == PutEntry(before, e, value);
      LessAsymmetric(arr[e].name, arr[|arr| - 1].name);
    }
  }

  // The caller's map, made on first use.
  function Made(vs: Views, names: set<string>, co: nat): Views {
    vs[co := ViewOf(vs, co, names)]
  }

  function Put(vs: Views, co: nat, n: string, value: Option<string>): Views
    requires co in vs
  {
    vs[co := vs[co][n := value]]
  }

  // When setenv and unsetenv write the caller's copy, and when they leave it alone.
  lemma StepOfSet(vs: Views, names: set<string>, co: nat, n: string, value: Option<string>, overwrite: bool)
    ensures var m := Made(vs, names, co);
            Step(vs, names, co, SetEnv(n, value, overwrite)) ==
            if n in m[co] && (overwrite || m[co][n].None?) then Put(m, co, n, value) else m
  {
  }

  lemma StepOfUnset(vs: Views, names: set<string>, co: nat, n: string)
    ensures var m := Made(vs, names, co);
            Step(vs, names, co, UnsetEnv(n)) == if n in m[co] && m[co][n].Some? then Put(m, co, n, None) else m
  {
    var v := ViewOf(vs, co, names);
    assert n in v && v[n].None? ==> v[n := None] == v;
  }

  // getenv makes the copy and changes nothing in it.
  lemma StepOfGet(vs: Views, names: set<string>, co: nat, n: string)
    ensures Step(vs, names, co, GetEnv(n)) == Made(vs, names, co)
  {
  }

  ghost predicate Listing(data: seq<Entry>, names: set<string>) {
    names == Names(data) && Increasing(data) && forall e | e in data :: e.value.None?
  }

  ghost predicate Separate(pvEnv: map<nat, EnvArr>) {
    forall a, b | a in pvEnv && b in pvEnv && a != b :: pvEnv[a] != pvEnv[b]
  }

  ghost predicate Held(pvEnv: map<nat, EnvArr>, copies: map<nat, seq<Entry>>)
    reads pvEnv.Values
  {
    copies.Keys == pvEnv.Keys && forall co | co in pvEnv :: pvEnv[co].data == copies[co]
  }

  ghost predicate Shown(copies: map<nat, seq<Entry>>, data: seq<Entry>, views: Views) {
    views.Keys == copies.Keys &&
    forall co | co in copies :: SameNames(copies[co], data) && views[co] == ToMap(copies[co])
  }

  ghost predicate IsKept(names: seq<Option<string>>, n: string) {
    n != "" && Some(n) in names
  }

  lemma {:induction false} CollectedKept(names: seq<Option<string>>)
    ensures forall n :: n in Names(Collected(names)) <==> IsKept(names, n)
    ensures forall e | e in Collected(names) :: e.value.None?
  {
    if names != [] {
      var before, last := names[..|names| - 1], names[|names| - 1];
      CollectedKept(before);
      assert names == before + [last];
      var kept := Collected(before);
      if last.Some? && last.value != "" {
        assert Collected(names) == kept + [Entry(last.value, None)];
        NamesSnoc(kept, Entry(last.value, None));
      } else {
        assert Collected(names) == kept;
      }
      assert forall n :: IsKept(names, n) <==> IsKept(before, n) || (n != "" && last == Some(n));
    }
  }

  lemma SamePermutation(s: seq<Entry>, t: seq<Entry>)
    requires multiset(s) == multiset(t)
    ensures |s| == |t| && Names(s) == Names(t) && forall e :: e in s <==> e in t
  {
    assert |s| == |multiset(s)|;
    assert forall e :: e in s <==> e in multiset(s);
    assert forall e :: e in t <==> e in multiset(t);
    forall n ensures n in Names(s) <==> n in Names(t) {
      InNames(s, n);
      InNames(t, n);
      assert forall i | 0 <= i < |s| :: s[i] in t;
      assert forall i | 0 <= i < |t| :: t[i] in s;
    }
  }

  // The list that co_set_env_list leaves. What qsort returns is a parameter: any sorted permutation.
  method Prepare(list: seq<Option<string>>, sorted: seq<Entry>) returns (data: seq<Entry>)
    requires Sorted(sorted) && multiset(sorted) == multiset(Collected(list))
    ensures Listing(data, Names(data)) && forall n :: n in Names(data) <==> IsKept(list, n)
  {
    CollectedKept(list);
    data := Collected(list);
    if |data| > 1 {
      SamePermutation(sorted, data);
      RunsOfSorted(sorted);
      var buffer := new Entry[|sorted|](i requires 0 <= i < |sorted| => sorted[i]);
      assert buffer[..|sorted|] == sorted;
      var n := Dedupe(buffer, |sorted|);
      data := buffer[..n];
    }
  }

  // stCoSysEnvArr_t.
  class EnvArr {
    var data: seq<Entry>

    constructor (data: seq<Entry>)
      ensures this.data == data
    {
      this.data := data;
    }

    // e->value = ...
    method Store(e: nat, value: Option<string>)
      requires e < |data|
      modifies this
      ensures data == PutEntry(old(data), e, value)
    {
      data := data[e := data[e].(value := value)];
    }
  }

  class SysEnv {
    var listed: bool                   // g_co_sysenv.data is not null
    var data: seq<Entry>               // g_co_sysenv
    var pvEnv: map<nat, EnvArr>        // the private copies, by coroutine
    ghost var names: set<string>       // the listed names
    ghost var copies: map<nat, seq<Entry>>
    ghost var views: Views             // what the copies show

    ghost predicate Valid()
      reads this, pvEnv.Values
    {
      && Listing(data, names)
      && (!listed ==> pvEnv == map[])
      && Separate(pvEnv)
      && Held(pvEnv, copies)
      && Shown(copies, data, views)
    }

    constructor ()
      ensures Valid() && !listed && views == map[]
    {
      listed, data, pvEnv := false, [], map[];
      names, copies, views := {}, map[], map[];
    }

    // co_set_env_list: only the first call has an effect.
    method SetEnvList(list: seq<Option<string>>, sorted: seq<Entry>)
      requires Valid()
      requires Sorted(sorted) && multiset(sorted) == multiset(Collected(list))
      modifies this`listed, this`data, this`names
      ensures Valid() && listed && views == old(views)
      ensures old(listed) ==> data == old(data) && names == old(names)
      ensures !old(listed) ==> forall n :: n in names <==> IsKept(list, n)
    {
      if !listed {
        var prepared := Prepare(list, sorted);
        listed, data, names := true, prepared, Names(prepared);
      }
    }

    // The caller's copy, made by dup_co_sysenv_arr on first use.
    method Ensure(self: nat) returns (arr: EnvArr)
      requires Valid() && listed
      modifies this`pvEnv, this`copies, this`views
      ensures Valid() && self in pvEnv && arr == pvEnv[self]
      ensures views == Made(old(views), names, self)
      ensures if self in old(pvEnv) then arr == old(pvEnv)[self] else fresh(arr)
    {
      if self in pvEnv {
        arr := pvEnv[self];
      } else {
        arr := new EnvArr(data);
        FreshShows(data);
        pvEnv := pvEnv[self := arr];
        copies, views := copies[self := data], Made(views, names, self);
      }
    }

    // A write to the caller's copy.
    method Store(self: nat, e: nat, ghost n: string, value: Option<string>)
      requires Valid() && self in pvEnv && e < |pvEnv[self].data| && pvEnv[self].data[e].name == n
      modifies this`copies, this`views, pvEnv[self]
      ensures Valid()
      ensures views == Put(old(views), self, n, value)
    {
      IncreasingOfSame(copies[self], data);
      PutShows(copies[self], e, value);
      copies, views := copies[self := PutEntry(copies[self], e, value)], Put(views, self, n, value);
      pvEnv[self].Store(e, value);
    }

    // The entry of a name in the caller's copy, if it is listed.
    method Lookup(self: nat, n: string) returns (here: bool, e: nat)
      requires Valid() && listed
      modifies this`pvEnv, this`copies, this`views
      ensures Valid() && self in pvEnv
      ensures if self in old(pvEnv) then pvEnv[self] == old(pvEnv)[self] else fresh(pvEnv[self])
      ensures views == Made(old(views), names, self)
      ensures here <==> n in names
      ensures here <==> n in views[self]
      ensures here ==> e < |pvEnv[self].data| && pvEnv[self].data[e] == Entry(n, views[self][n])
    {
      var arr := Ensure(self);
      here, e := BSearch(arr.data, n, data);
      NamesOfSame(copies[self], data);
      ToMapKeys(copies[self]);
      if here {
        IncreasingOfSame(copies[self], data);
        ToMapAt(copies[self], e);
      }
    }

    // The result says whether the call was answered here; otherwise the system's own is called.
    method Setenv(self: nat, n: string, value: Option<string>, overwrite: bool) returns (here: bool)
      requires Valid()
      modifies this`pvEnv, this`copies, this`views, pvEnv.Values
      ensures Valid() && (here <==> listed && n in names)
      ensures views == if listed then Step(old(views), names, self, SetEnv(n, value, overwrite)) else old(views)
    {
      if !listed {
        return false;
      }
      StepOfSet(views, names, self, n, value, overwrite);
      var e;
      here, e := Lookup(self, n);
      if here && (overwrite || pvEnv[self].data[e].value.None?) {
        Store(self, e, n, value);
      }
    }

    method Unsetenv(self: nat, n: string) returns (here: bool)
      requires Valid()
      modifies this`pvEnv, this`copies, this`views, pvEnv.Values
      ensures Valid() && (here <==> listed && n in names)
      ensures views == if listed then Step(old(views), names, self, UnsetEnv(n)) else old(views)
    {
      if !listed {
        return false;
      }
      StepOfUnset(views, names, self, n);
      var e;
      here, e := Lookup(self, n);
      if here && pvEnv[self].data[e].value.Some? {
        Store(self, e, n, None);
      }
    }

    method Getenv(self: nat, n: string) returns (here: bool, value: Option<string>)
      requires Valid()
      modifies this`pvEnv, this`copies, this`views
      ensures Valid() && (here <==> listed && n in names)
      ensures views == if listed then Step(old(views), names, self, GetEnv(n)) else old(views)
      ensures views == if listed then Made(old(views), names, self) else old(views)
      ensures here ==> n in ViewOf(old(views), self, names) && value == ViewOf(old(views), self, names)[n]
    {
      if !listed {
        return false, None;
      }
      StepOfGet(views, names, self, n);
      var e;
      here, e := Lookup(self, n);
      value := if here then pvEnv[self].data[e].value else None;
    }
  }
}
