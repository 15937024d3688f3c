/** The hooked poll of libco/co_hook_sys_call.cpp: entries with the same fd are merged into one
    before waiting, and the answer is handed back to every original entry. A bit mask is the set of
    its flags, so | is union and & is intersection. */
module PollMerge {

  datatype Flag =
    | POLLIN | POLLPRI | POLLOUT | POLLERR | POLLHUP | POLLNVAL
    | POLLRDNORM | POLLRDBAND | POLLWRNORM | POLLWRBAND

  type Mask = set<Flag>

  datatype PollFd = PollFd(fd: int, events: Mask, revents: Mask)

  // The flags that PollEvent2Epoll and EpollEvent2Poll carry over (lines 717-738 of co_routine.cpp).
  const CARRIED: Mask := {POLLIN, POLLOUT, POLLHUP, POLLERR, POLLRDNORM, POLLWRNORM}

  // ---- The reference: the hooked poll on one entry -----------------------------------------

  // What is pending on each fd at the moment of the answer; the kernel is an oracle.
  type Ready = map<int, Mask>

  // Of the flags that are carried over, the requested ones that are pending, error and hang-up whether
  // requested or not, and nothing for a negative fd. POSIX poll() would also report the other flags.
  function Polled(ready: Ready, x: PollFd): Mask {
    if x.fd < 0 || x.fd !in ready then {} else ready[x.fd] * (x.events * CARRIED + {POLLERR, POLLHUP})
  }

  // ---- The translation to epoll and back -----------------------------------------------------

  datatype EpollFlag = EPOLLIN | EPOLLPRI | EPOLLOUT | EPOLLERR | EPOLLHUP | EPOLLRDNORM | EPOLLWRNORM

  method PollEvent2Epoll(events: Mask) returns (e: set<EpollFlag>)
    ensures e == EpollOf(events)
  {
    e := {};
    if POLLIN in events { e := e + {EPOLLIN}; }
    if POLLOUT in events { e := e + {EPOLLOUT}; }
    if POLLHUP in events { e := e + {EPOLLHUP}; }
    if POLLERR in events { e := e + {EPOLLERR}; }
    if POLLRDNORM in events { e := e + {EPOLLRDNORM}; }
    if POLLWRNORM in events { e := e + {EPOLLWRNORM}; }
  }

  method EpollEvent2Poll(events: set<EpollFlag>) returns (e: Mask)
    ensures e == PollOf(events)
  {
    e := {};
    if EPOLLIN in events { e := e + {POLLIN}; }
    if EPOLLOUT in events { e := e + {POLLOUT}; }
    if EPOLLHUP in events { e := e + {POLLHUP}; }
    if EPOLLERR in events { e := e + {POLLERR}; }
    if EPOLLRDNORM in events { e := e + {POLLRDNORM}; }
    if EPOLLWRNORM in events { e := e + {POLLWRNORM}; }
  }

  // The flags of the same name.
  predicate Named(f: Flag, e: EpollFlag) {
    match e
    case EPOLLIN => f == POLLIN
    case EPOLLOUT => f == POLLOUT
    case EPOLLHUP => f == POLLHUP
    case EPOLLERR => f == POLLERR
    case EPOLLRDNORM => f == POLLRDNORM
    case EPOLLWRNORM => f == POLLWRNORM
    case EPOLLPRI => f == POLLPRI
  }

  ghost predicate InEpoll(events: Mask, e: EpollFlag) {
    e != EPOLLPRI && exists f :: f in events && Named(f, e)
  }

  ghost predicate InPoll(events: set<EpollFlag>, f: Flag) {
    exists e :: e in events && e != EPOLLPRI && Named(f, e)
  }

  ghost function EpollOf(events: Mask): set<EpollFlag> {
    set e: EpollFlag | InEpoll(events, e)
  }

  ghost function PollOf(events: set<EpollFlag>): Mask {
    set f: Flag | InPoll(events, f)
  }

  // What the hooked poll hears is what epoll says of an entry's translated flags, translated back; it
  // always says errors and hang-ups.
  lemma PolledThroughEpoll(ready: Ready, x: PollFd)
    requires 0 <= x.fd && x.fd in ready
    ensures Polled(ready, x) == PollOf(EpollOf(ready[x.fd]) * (EpollOf(x.events) + {EPOLLERR, EPOLLHUP}))
  {
    forall f: Flag
      ensures f in Polled(ready, x) <==>
              f in PollOf(EpollOf(ready[x.fd]) * (EpollOf(x.events) + {EPOLLERR, EPOLLHUP}))
    {
      ThroughEpoll(ready[x.fd], x.events, f);
    }
  }

  lemma ThroughEpoll(pending: Mask, events: Mask, f: Flag)
    ensures f in pending * (events * CARRIED + {POLLERR, POLLHUP}) <==>
            f in PollOf(EpollOf(pending) * (EpollOf(events) + {EPOLLERR, EPOLLHUP}))
  {
    match f
    case POLLIN => assert Named(f, EPOLLIN);
    case POLLOUT => assert Named(f, EPOLLOUT);
    case POLLHUP => assert Named(f, EPOLLHUP);
    case POLLERR => assert Named(f, EPOLLERR);
    case POLLRDNORM => assert Named(f, EPOLLRDNORM);
    case POLLWRNORM => assert Named(f, EPOLLWRNORM);
    case _ =>
  }

  // Readable and writable are reported exactly if they are pending and asked for.
  lemma AnswerIsExact(ready: Ready, x: PollFd, f: Flag)
    ensures f in Polled(ready, x) <==>
            && 0 <= x.fd && x.fd in ready && f in ready[x.fd]
            && (f in {POLLERR, POLLHUP} || (f in x.events && f in {POLLIN, POLLOUT, POLLRDNORM, POLLWRNORM}))
  {
  }

  // ---- What merging means ------------------------------------------------------------------

  // The distinct fds in the order in which they first appear.
  function FirstFds(fds: seq<PollFd>): (r: seq<int>)
    ensures forall x | x in fds :: x.fd in r
    ensures forall fd | fd in r :: exists x :: x in fds && x.fd == fd
    ensures forall i, j | 0 <= i < j < |r| :: r[i] != r[j]
  {
    if fds == [] then []
    else
      var last, before := fds[|fds| - 1], fds[..|fds| - 1];
      var r := FirstFds(before);
      assert fds == before + [last];
      if last.fd in r then r else r + [last.fd]
  }

  // All flags requested for an fd by any entry.
  function MaskOf(fds: seq<PollFd>, fd: int): Mask {
    if fds == [] then {}
    else MaskOf(fds[..|fds| - 1], fd) + (if fds[|fds| - 1].fd == fd then fds[|fds| - 1].events else {})
  }

  ghost predicate DistinctFds(fds: seq<PollFd>) {
    forall i, j | 0 <= i < j < |fds| :: fds[i].fd != fds[j].fd
  }

  // One entry per fd, in order of first appearance, asking for everything its duplicates ask for;
  // m is the index of each fd.
  ghost predicate IsMergeOf(merge: seq<PollFd>, m: map<int, nat>, fds: seq<PollFd>) {
    && |merge| == |FirstFds(fds)|
    && (forall j | 0 <= j < |merge| ::
          merge[j].fd == FirstFds(fds)[j] && merge[j].events == MaskOf(fds, merge[j].fd) && merge[j].fd in m)
    && forall fd | fd in m :: m[fd] < |merge| && merge[m[fd]].fd == fd
  }

  lemma {:induction false} MaskContains(fds: seq<PollFd>, i: nat)
    requires i < |fds|
    ensures fds[i].events <= MaskOf(fds, fds[i].fd)
  {
    if i < |fds| - 1 {
      MaskContains(fds[..|fds| - 1], i);
    }
  }

  // Polling the merged entry, masked with one original's own flags, is polling that original alone,
  // masked with its own flags: for all kernels, all entry lists and all positions.
  lemma MergePreservesMeaning(ready: Ready, fds: seq<PollFd>, i: nat, merged: PollFd)
    requires i < |fds| && merged.fd == fds[i].fd && merged.events == MaskOf(fds, fds[i].fd)
    ensures Polled(ready, merged) * fds[i].events == Polled(ready, fds[i]) * fds[i].events
  {
    MaskContains(fds, i);
  }

  lemma DistinctStep(before: seq<PollFd>, x: PollFd)
    ensures DistinctFds(before + [x]) <==> DistinctFds(before) && x.fd !in FirstFds(before)
  {
    var all, n := before + [x], |before|;
    assert forall i | 0 <= i < n :: all[i] == before[i];
    if x.fd in FirstFds(before) {
      var y :| y in before && y.fd == x.fd;
      var i :| 0 <= i < n && before[i] == y;
      assert all[i].fd == all[n].fd;
    } else {
      forall i | 0 <= i < n ensures all[i].fd != x.fd {
        assert before[i] in before;
      }
    }
    if DistinctFds(all) {
      forall i, j | 0 <= i < j < n ensures before[i].fd != before[j].fd {
        assert all[i].fd != all[j].fd;
      }
    }
  }

  // The merge is shorter exactly when two entries share an fd, so the test of line 606 detects it.
  lemma {:induction false} ShorterIffDuplicates(fds: seq<PollFd>)
    ensures |FirstFds(fds)| <= |fds|
    ensures |FirstFds(fds)| == |fds| <==> DistinctFds(fds)
  {
    if fds != [] {
      var before, x := fds[..|fds| - 1], fds[|fds| - 1];
      ShorterIffDuplicates(before);
      DistinctStep(before, x);
      assert fds == before + [x];
    }
  }

  // ---- The code ------------------------------------------------------------------------------

  // The loop of lines 593-602.
  method Merge(fds: seq<PollFd>) returns (merge: seq<PollFd>, m: map<int, nat>)
    ensures IsMergeOf(merge, m, fds)
  {
    merge, m := [], map[];
    for i := 0 to |fds|
      invariant IsMergeOf(merge, m, fds[..i])
    {
      merge, m := MergeOne(merge, m, fds[..i], fds[i]);
      assert fds[..i + 1] == fds[..i] + [fds[i]];
    }
    assert fds[..|fds|] == fds;
  }

  method MergeOne(merge: seq<PollFd>, m: map<int, nat>, ghost before: seq<PollFd>, x: PollFd)
    returns (merge': seq<PollFd>, m': map<int, nat>)
    requires IsMergeOf(merge, m, before)
    ensures IsMergeOf(merge', m', before + [x])
  {
    assert (before + [x])[..|before|] == before;
    assert forall fd :: MaskOf(before + [x], fd) == MaskOf(before, fd) + if x.fd == fd then x.events else {};
    if x.fd !in m {
      AbsentHasNoMask(before, x.fd);
      merge' := merge + [x];
      m' := m[x.fd := |merge|];
    } else {
      var j := m[x.fd];
      merge' := merge[j := merge[j].(events := merge[j].events + x.events)];
      m' := m;
    }
  }

  lemma {:induction false} AbsentHasNoMask(fds: seq<PollFd>, fd: int)
    requires fd !in FirstFds(fds)
    ensures MaskOf(fds, fd) == {}
  {
    if fds != [] {
      AbsentHasNoMask(fds[..|fds| - 1], fd);
    }
  }

  // co_poll_inner as the caller sees it: every entry gets the kernel's answer and the result is the
  // number of entries with an answer; a failure answers nothing.
  function Answered(ready: Ready, fails: bool, fds: seq<PollFd>): seq<PollFd> {
    seq(|fds|, i requires 0 <= i < |fds| => fds[i].(revents := if fails then {} else Polled(ready, fds[i])))
  }

  function CountAnswered(fds: seq<PollFd>): nat {
    if fds == [] then 0
    else CountAnswered(fds[..|fds| - 1]) + if fds[|fds| - 1].revents != {} then 1 else 0
  }

  // That is how many entries have an answer.
  ghost function AnsweredAt(fds: seq<PollFd>): set<nat> {
    set i: nat | i < |fds| && fds[i].revents != {}
  }

  lemma {:induction false} CountIsExact(fds: seq<PollFd>)
    ensures CountAnswered(fds) == |AnsweredAt(fds)|
  {
    if fds != [] {
      var n := |fds| - 1;
      CountIsExact(fds[..n]);
      assert AnsweredAt(fds) == AnsweredAt(fds[..n]) + if fds[n].revents != {} then {n} else {};
    }
  }

  function CoPollInner(ready: Ready, fails: bool, fds: seq<PollFd>): (r: (seq<PollFd>, int)) {
    var a := Answered(ready, fails, fds);
    (a, if fails then -1 else CountAnswered(a))
  }

  // What the caller finds after a call with duplicates: every entry has its own share of the answer.
  function Share(ready: Ready, x: PollFd): Mask {
    Polled(ready, x) * x.events
  }

  function HandedBack(ready: Ready, fds: seq<PollFd>): seq<PollFd> {
    seq(|fds|, i requires 0 <= i < |fds| => fds[i].(revents := Share(ready, fds[i])))
  }

  // The fds that some entry hears of.
  function Woken(ready: Ready, fds: seq<PollFd>): set<int> {
    if fds == [] then {}
    else
      var last := fds[|fds| - 1];
      Woken(ready, fds[..|fds| - 1]) + if Share(ready, last) != {} then {last.fd} else {}
  }

  lemma {:induction false} WokenMeans(ready: Ready, fds: seq<PollFd>, fd: int)
    ensures fd in Woken(ready, fds) <==> exists i :: 0 <= i < |fds| && Share(ready, fds[i]) != {} && fds[i].fd == fd
  {
    if fds != [] {
      var n := |fds| - 1;
      WokenMeans(ready, fds[..n], fd);
      if i :| 0 <= i < n && Share(ready, fds[i]) != {} && fds[i].fd == fd {
        assert fds[..n][i] == fds[i];
      }
    }
  }

  // The fds that the merged entries report.
  predicate Reports(ready: Ready, fds: seq<PollFd>, fd: int) {
    Polled(ready, PollFd(fd, MaskOf(fds, fd), {})) != {}
  }

  function ReportedOf(ready: Ready, fds: seq<PollFd>, first: seq<int>): (r: set<int>)
    ensures forall fd :: fd in r <==> fd in first && Reports(ready, fds, fd)
  {
    if first == [] then {}
    else
      var last, before := first[|first| - 1], first[..|first| - 1];
      assert first == before + [last];
      ReportedOf(ready, fds, before) + if Reports(ready, fds, last) then {last} else {}
  }

  function Reported(ready: Ready, fds: seq<PollFd>): set<int> {
    ReportedOf(ready, fds, FirstFds(fds))
  }

  // An fd reports when something is pending on it that one of its entries would hear of.
  lemma ReportedMeans(ready: Ready, fds: seq<PollFd>, fd: int)
    ensures fd in Reported(ready, fds) <==> exists i :: 0 <= i < |fds| && fds[i].fd == fd && Polled(ready, fds[i]) != {}
  {
    if i :| 0 <= i < |fds| && fds[i].fd == fd && Polled(ready, fds[i]) != {} {
      assert fds[i] in fds;
      MaskContains(fds, i);
      var flag :| flag in Polled(ready, fds[i]);
      assert flag in Polled(ready, PollFd(fd, MaskOf(fds, fd), {}));
    }
    if fd in Reported(ready, fds) {
      var flag :| flag in Polled(ready, PollFd(fd, MaskOf(fds, fd), {}));
      var x :| x in fds && x.fd == fd;
      var i :| 0 <= i < |fds| && fds[i] == x;
      if flag in MaskOf(fds, fd) {
        i := MaskFrom(fds, fd, flag);
      }
      assert flag in Polled(ready, fds[i]);
    }
  }

  ghost predicate HeardOnce(ready: Ready, fds: seq<PollFd>) {
    forall i, j | 0 <= i < j < |fds| && Share(ready, fds[i]) != {} && Share(ready, fds[j]) != {} ::
      fds[i].fd != fds[j].fd
  }

  // One more entry that hears something counts once, and adds its fd unless it is known.
  lemma {:induction false} CountBound(ready: Ready, fds: seq<PollFd>)
    ensures |Woken(ready, fds)| <= CountAnswered(HandedBack(ready, fds))
    ensures |Woken(ready, fds)| == CountAnswered(HandedBack(ready, fds)) <==> HeardOnce(ready, fds)
  {
    if fds != [] {
      var n, before := |fds| - 1, fds[..|fds| - 1];
      var x := fds[n];
      CountBound(ready, before);
      assert fds == before + [x];
      CountStep(ready, before, x);
    }
  }

  lemma CountStep(ready: Ready, before: seq<PollFd>, x: PollFd)
    requires |Woken(ready, before)| <= CountAnswered(HandedBack(ready, before))
    requires |Woken(ready, before)| == CountAnswered(HandedBack(ready, before)) <==> HeardOnce(ready, before)
    ensures var fds := before + [x];
            && |Woken(ready, fds)| <= CountAnswered(HandedBack(ready, fds))
            && (|Woken(ready, fds)| == CountAnswered(HandedBack(ready, fds)) <==> HeardOnce(ready, fds))
  {
    HandedStep(ready, before, x);
    HeardOnceStep(ready, before, x);
    WokenStep(ready, before, x);
  }

  lemma WokenStep(ready: Ready, before: seq<PollFd>, x: PollFd)
    ensures |Woken(ready, before + [x])| ==
            |Woken(ready, before)| + if Share(ready, x) != {} && x.fd !in Woken(ready, before) then 1 else 0
  {
    assert (before + [x])[..|before|] == before;
    if x.fd in Woken(ready, before) {
      assert Woken(ready, before) + {x.fd} == Woken(ready, before);
    }
  }

  lemma HandedStep(ready: Ready, before: seq<PollFd>, x: PollFd)
    ensures CountAnswered(HandedBack(ready, before + [x])) ==
            CountAnswered(HandedBack(ready, before)) + if Share(ready, x) != {} then 1 else 0
  {
    assert HandedBack(ready, before + [x])[..|before|] == HandedBack(ready, before);
  }

  lemma HeardOnceStep(ready: Ready, before: seq<PollFd>, x: PollFd)
    ensures HeardOnce(ready, before + [x]) <==>
            HeardOnce(ready, before) && (Share(ready, x) != {} ==> x.fd !in Woken(ready, before))
  {
    var all, n := before + [x], |before|;
    WokenMeans(ready, before, x.fd);
    assert forall i | 0 <= i < n :: all[i] == before[i];
    if Share(ready, x) != {} && x.fd in Woken(ready, before) {
      var i :| 0 <= i < n && Share(ready, before[i]) != {} && before[i].fd == x.fd;
      assert all[i].fd == all[n].fd;
    }
    if HeardOnce(ready, all) {
      forall i, j | 0 <= i < j < n && Share(ready, before[i]) != {} && Share(ready, before[j]) != {}
        ensures before[i].fd != before[j].fd
      {
        assert all[i].fd != all[j].fd;
      }
    }
  }

  // Merged entries with different fds are counted once for each fd that reports.
  lemma {:induction false} ReportCount(ready: Ready, fds: seq<PollFd>, merge: seq<PollFd>, first: seq<int>)
    requires |merge| == |first| && forall i, j | 0 <= i < j < |first| :: first[i] != first[j]
    requires forall j | 0 <= j < |merge| :: merge[j].fd == first[j] && merge[j].events == MaskOf(fds, first[j])
    ensures CountAnswered(Answered(ready, false, merge)) == |ReportedOf(ready, fds, first)|
  {
    if merge != [] {
      var n := |merge| - 1;
      ReportCount(ready, fds, merge[..n], first[..n]);
      ReportStep(ready, fds, merge, first);
    }
  }

  lemma ReportStep(ready: Ready, fds: seq<PollFd>, merge: seq<PollFd>, first: seq<int>)
    requires |merge| == |first| > 0 && forall i, j | 0 <= i < j < |first| :: first[i] != first[j]
    requires var x := merge[|merge| - 1]; x.fd == first[|first| - 1] && x.events == MaskOf(fds, x.fd)
    ensures var n := |merge| - 1;
            CountAnswered(Answered(ready, false, merge)) - CountAnswered(Answered(ready, false, merge[..n])) ==
            |ReportedOf(ready, fds, first)| - |ReportedOf(ready, fds, first[..n])|
  {
    var n := |merge| - 1;
    AnswerStep(ready, merge[..n], merge[n]);
    assert merge[..n] + [merge[n]] == merge;
    ReportedStep(ready, fds, first);
  }

  lemma AnswerStep(ready: Ready, before: seq<PollFd>, x: PollFd)
    ensures CountAnswered(Answered(ready, false, before + [x])) ==
            CountAnswered(Answered(ready, false, before)) + if Polled(ready, x) != {} then 1 else 0
  {
    assert Answered(ready, false, before + [x])[..|before|] == Answered(ready, false, before);
  }

  lemma ReportedStep(ready: Ready, fds: seq<PollFd>, first: seq<int>)
    requires first != [] && forall i, j | 0 <= i < j < |first| :: first[i] != first[j]
    ensures var n := |first| - 1;
            |ReportedOf(ready, fds, first)| ==
            |ReportedOf(ready, fds, first[..n])| + if Reports(ready, fds, first[n]) then 1 else 0
  {
    var n := |first| - 1;
    assert first[n] !in first[..n];
  }

  // The count that co_poll_inner returns for the merged entries is the number of reported fds.
  lemma MergedCount(ready: Ready, fds: seq<PollFd>, merge: seq<PollFd>, m: map<int, nat>)
    requires IsMergeOf(merge, m, fds)
    ensures CountAnswered(Answered(ready, false, merge)) == |Reported(ready, fds)|
  {
    ReportCount(ready, fds, merge, FirstFds(fds));
  }

  // What an entry hears is reported for its fd.
  lemma WokenReported(ready: Ready, fds: seq<PollFd>)
    ensures Woken(ready, fds) <= Reported(ready, fds)
  {
    forall fd | fd in Woken(ready, fds) ensures fd in Reported(ready, fds) {
      WokenMeans(ready, fds, fd);
      var i :| 0 <= i < |fds| && Share(ready, fds[i]) != {} && fds[i].fd == fd;
      assert fds[i] in fds;
      MergePreservesMeaning(ready, fds, i, PollFd(fd, MaskOf(fds, fd), {}));
    }
  }

  // If everything that is reported is heard by some entry, the counts agree when no fd is heard twice.
  lemma CountsCompared(ready: Ready, fds: seq<PollFd>)
    ensures var n, woken, reported := CountAnswered(HandedBack(ready, fds)), Woken(ready, fds), Reported(ready, fds);
            && woken <= reported && |woken| <= n
            && (woken == reported ==> (|reported| == n <==> HeardOnce(ready, fds)))
  {
    WokenReported(ready, fds);
    CountBound(ready, fds);
  }

  // What an entry asks for and can hear of.
  function Asked(x: PollFd): Mask {
    x.events * CARRIED
  }

  // No two entries of one fd ask for anything.
  ghost predicate OneAsks(fds: seq<PollFd>) {
    forall i, j | 0 <= i < j < |fds| && 0 <= fds[i].fd == fds[j].fd :: Asked(fds[i]) == {} || Asked(fds[j]) == {}
  }

  // Some entry of every fd asks for the errors that are reported unasked.
  ghost predicate AsksForErrors(fds: seq<PollFd>, fd: int) {
    exists j :: 0 <= j < |fds| && fds[j].fd == fd && {POLLERR, POLLHUP} <= fds[j].events
  }

  ghost predicate AllAskForErrors(fds: seq<PollFd>) {
    forall i | 0 <= i < |fds| && 0 <= fds[i].fd :: AsksForErrors(fds, fds[i].fd)
  }

  ghost predicate CountsEntries(ready: Ready, fds: seq<PollFd>) {
    |Reported(ready, fds)| == CountAnswered(HandedBack(ready, fds))
  }

  lemma ShareIs(ready: Ready, x: PollFd)
    ensures Share(ready, x) == if x.fd < 0 || x.fd !in ready then {} else ready[x.fd] * Asked(x)
  {
  }

  lemma {:induction false} MaskFrom(fds: seq<PollFd>, fd: int, flag: Flag) returns (i: nat)
    requires flag in MaskOf(fds, fd)
    ensures i < |fds| && fds[i].fd == fd && flag in fds[i].events
  {
    var n := |fds| - 1;
    if fds[n].fd == fd && flag in fds[n].events {
      i := n;
    } else {
      i := MaskFrom(fds[..n], fd, flag);
    }
  }

  lemma Hears(ready: Ready, fds: seq<PollFd>, i: nat, flag: Flag)
    requires i < |fds| && 0 <= fds[i].fd && fds[i].fd in ready && flag in ready[fds[i].fd] && flag in Asked(fds[i])
    ensures fds[i].fd in Woken(ready, fds)
  {
    ShareIs(ready, fds[i]);
    WokenMeans(ready, fds, fds[i].fd);
  }

  // With the errors asked for, somebody hears of every report.
  lemma ReportedHeard(ready: Ready, fds: seq<PollFd>, fd: int)
    requires AllAskForErrors(fds) && fd in Reported(ready, fds)
    ensures fd in Woken(ready, fds)
  {
    var merged := PollFd(fd, MaskOf(fds, fd), {});
    var flag :| flag in Polled(ready, merged);
    if flag == POLLERR || flag == POLLHUP {
      var x :| x in fds && x.fd == fd;
      var i :| 0 <= i < |fds| && fds[i] == x;
      assert AsksForErrors(fds, fds[i].fd);
      var j :| 0 <= j < |fds| && fds[j].fd == fd && {POLLERR, POLLHUP} <= fds[j].events;
      Hears(ready, fds, j, flag);
    } else {
      var i := MaskFrom(fds, fd, flag);
      Hears(ready, fds, i, flag);
    }
  }

  lemma CountsWhenAsked(ready: Ready, fds: seq<PollFd>)
    requires OneAsks(fds) && AllAskForErrors(fds)
    ensures CountsEntries(ready, fds)
  {
    CountsCompared(ready, fds);
    forall fd | fd in Reported(ready, fds) ensures fd in Woken(ready, fds) {
      ReportedHeard(ready, fds, fd);
    }
    forall i, j | 0 <= i < j < |fds| && Share(ready, fds[i]) != {} && Share(ready, fds[j]) != {}
      ensures fds[i].fd != fds[j].fd
    {
      ShareIs(ready, fds[i]);
      ShareIs(ready, fds[j]);
    }
  }

  // The kernel that reports these flags for one fd and nothing else.
  function Only(fd: int, flags: Mask): Ready {
    map[fd := flags]
  }

  lemma OnlyReports(fd: int, flags: Mask, fds: seq<PollFd>)
    ensures Reported(Only(fd, flags), fds) <= {fd}
  {
    forall f | f in Reported(Only(fd, flags), fds) ensures f == fd {
      assert Reports(Only(fd, flags), fds, f);
    }
  }

  lemma TwoAskers(fds: seq<PollFd>, i: nat, j: nat)
    requires i < j < |fds| && 0 <= fds[i].fd == fds[j].fd && Asked(fds[i]) != {} && Asked(fds[j]) != {}
    ensures !CountsEntries(Only(fds[i].fd, CARRIED), fds)
  {
    var ready, fd := Only(fds[i].fd, CARRIED), fds[i].fd;
    CountsCompared(ready, fds);
    OnlyReports(fd, CARRIED, fds);
    ShareIs(ready, fds[i]);
    ShareIs(ready, fds[j]);
    var flag :| flag in Asked(fds[i]);
    Hears(ready, fds, i, flag);
    assert Woken(ready, fds) == Reported(ready, fds);
    assert !HeardOnce(ready, fds);
  }

  lemma ErrorReported(fds: seq<PollFd>, i: nat, flag: Flag)
    requires i < |fds| && 0 <= fds[i].fd && (flag == POLLERR || flag == POLLHUP)
    ensures fds[i].fd in Reported(Only(fds[i].fd, {flag}), fds)
  {
    var fd := fds[i].fd;
    assert fds[i] in fds && fd in FirstFds(fds);
    assert flag in Polled(Only(fd, {flag}), PollFd(fd, MaskOf(fds, fd), {}));
  }

  // An error that is counted is one that an entry has asked for.
  lemma ErrorAsked(fds: seq<PollFd>, i: nat, flag: Flag) returns (j: nat)
    requires i < |fds| && 0 <= fds[i].fd && (flag == POLLERR || flag == POLLHUP)
    requires CountsEntries(Only(fds[i].fd, {flag}), fds)
    ensures j < |fds| && fds[j].fd == fds[i].fd && flag in Asked(fds[j])
  {
    var ready, fd := Only(fds[i].fd, {flag}), fds[i].fd;
    ErrorReported(fds, i, flag);
    CountsCompared(ready, fds);
    CountBound(ready, fds);
    NobodyHears(ready, fds);
    OnlyReports(fd, {flag}, fds);
    assert Woken(ready, fds) != {};
    WokenMeans(ready, fds, fd);
    j :| 0 <= j < |fds| && Share(ready, fds[j]) != {} && fds[j].fd == fd;
    ShareIs(ready, fds[j]);
  }

  lemma NobodyHears(ready: Ready, fds: seq<PollFd>)
    ensures Woken(ready, fds) == {} ==> HeardOnce(ready, fds)
  {
    forall i | 0 <= i < |fds| && Share(ready, fds[i]) != {} ensures fds[i].fd in Woken(ready, fds) {
      WokenMeans(ready, fds, fds[i].fd);
    }
  }

  ghost predicate AlwaysCountsEntries(fds: seq<PollFd>) {
    forall ready :: CountsEntries(ready, fds)
  }

  lemma ThenOneAsks(fds: seq<PollFd>)
    requires AlwaysCountsEntries(fds)
    ensures OneAsks(fds)
  {
    forall i, j | 0 <= i < j < |fds| && 0 <= fds[i].fd == fds[j].fd
      ensures Asked(fds[i]) == {} || Asked(fds[j]) == {}
    {
      if Asked(fds[i]) != {} && Asked(fds[j]) != {} {
        TwoAskers(fds, i, j);
      }
    }
  }

  lemma ThenAllAskForErrors(fds: seq<PollFd>)
    requires AlwaysCountsEntries(fds) && OneAsks(fds)
    ensures AllAskForErrors(fds)
  {
    forall i | 0 <= i < |fds| && 0 <= fds[i].fd ensures AsksForErrors(fds, fds[i].fd) {
      var j := ErrorAsked(fds, i, POLLERR);
      var k := ErrorAsked(fds, i, POLLHUP);
      assert j == k;
    }
  }

  // With duplicates the call counts fds and its caller counts entries. Whatever the kernel reports, the
  // two agree if and only if of the entries of an fd one asks for anything, and that one for the errors.
  lemma CountsEntriesIff(fds: seq<PollFd>)
    ensures (forall ready :: CountsEntries(ready, fds)) <==> OneAsks(fds) && AllAskForErrors(fds)
  {
    if OneAsks(fds) && AllAskForErrors(fds) {
      forall ready ensures CountsEntries(ready, fds) {
        CountsWhenAsked(ready, fds);
      }
    }
    if forall ready :: CountsEntries(ready, fds) {
      ThenOneAsks(fds);
      ThenAllAskForErrors(fds);
    }
  }

  // Two entries wait for the same fd to become readable: both are answered, and the call says one.
  lemma OneCountedForTwo(fd: int)
    requires 0 <= fd
    ensures var fds := [PollFd(fd, {POLLIN}, {}), PollFd(fd, {POLLIN}, {})];
            var ready := Only(fd, {POLLIN});
            |Reported(ready, fds)| == 1 && CountAnswered(HandedBack(ready, fds)) == 2
  {
    var x := PollFd(fd, {POLLIN}, {});
    var fds, ready := [x, x], Only(fd, {POLLIN});
    assert fds[..1] == [x] && POLLIN in Share(ready, x);
    HandedStep(ready, [x], x);
    HandedStep(ready, [], x);
    assert [x] + [x] == fds && [] + [x] == [x];
    Hears(ready, fds, 0, POLLIN);
    CountsCompared(ready, fds);
    OnlyReports(fd, {POLLIN}, fds);
    assert Reported(ready, fds) == {fd};
  }

  // poll() with hooks enabled and a timeout other than 0.
  method Poll(fds: array<PollFd>, ready: Ready, fails: bool) returns (ret: int)
    modifies fds
    ensures DistinctFds(old(fds[..])) ==> (fds[..], ret) == CoPollInner(ready, fails, old(fds[..]))
    ensures DistinctFds(old(fds[..])) ==>
              forall i | 0 <= i < fds.Length ::
                fds[i] == old(fds[i]).(revents := if fails then {} else Polled(ready, old(fds[i])))
    ensures DistinctFds(old(fds[..])) ==> ret == if fails then -1 else |AnsweredAt(fds[..])|
    ensures !DistinctFds(old(fds[..])) ==> ret == if fails then -1 else |Reported(ready, old(fds[..]))|
    ensures !DistinctFds(old(fds[..])) && ret > 0 ==> fds[..] == HandedBack(ready, old(fds[..]))
    ensures !DistinctFds(old(fds[..])) && ret > 0 ==>
              forall i | 0 <= i < fds.Length ::
                fds[i] == old(fds[i]).(revents := Polled(ready, old(fds[i])) * old(fds[i]).events)
    ensures !DistinctFds(old(fds[..])) && ret <= 0 ==> fds[..] == old(fds[..])
  {
    ghost var was := fds[..];
    var merge, m := Merge(fds[..]);
    ShorterIffDuplicates(was);
    if |merge| == fds.Length {
      ret := PollAsIs(fds, ready, fails);
    } else {
      ret := PollMerged(fds, merge, m, ready, fails);
    }
  }

  // co_poll_inner on the entries of the caller.
  method PollAsIs(fds: array<PollFd>, ready: Ready, fails: bool) returns (ret: int)
    modifies fds
    ensures (fds[..], ret) == CoPollInner(ready, fails, old(fds[..]))
    ensures forall i | 0 <= i < fds.Length ::
              fds[i] == old(fds[i]).(revents := if fails then {} else Polled(ready, old(fds[i])))
    ensures ret == if fails then -1 else |AnsweredAt(fds[..])|
  {
    var (answered, r) := CoPollInner(ready, fails, fds[..]);
    ret := r;
    forall i | 0 <= i < fds.Length {
      fds[i] := answered[i];
    }
    assert fds[..] == answered;
    CountIsExact(answered);
  }

  // co_poll_inner on the merged entries.
  method PollMerged(fds: array<PollFd>, merge: seq<PollFd>, m: map<int, nat>, ready: Ready, fails: bool)
    returns (ret: int)
    requires IsMergeOf(merge, m, fds[..])
    modifies fds
    ensures ret == if fails then -1 else |Reported(ready, old(fds[..]))|
    ensures fds[..] == if ret > 0 then HandedBack(ready, old(fds[..])) else old(fds[..])
    ensures ret > 0 ==>
              forall i | 0 <= i < fds.Length ::
                fds[i] == old(fds[i]).(revents := Polled(ready, old(fds[i])) * old(fds[i]).events)
  {
    var (answered, r) := CoPollInner(ready, fails, merge);
    ret := r;
    MergedCount(ready, fds[..], merge, m);
    if ret > 0 {
      HandBack(fds, answered, m, merge, ready);
    }
  }

  // The loop of lines 612-618.
  method HandBack(fds: array<PollFd>, answered: seq<PollFd>, m: map<int, nat>, ghost merge: seq<PollFd>, ready: Ready)
    requires IsMergeOf(merge, m, fds[..]) && answered == Answered(ready, false, merge)
    modifies fds
    ensures fds[..] == HandedBack(ready, old(fds[..]))
    ensures forall i | 0 <= i < fds.Length ::
              fds[i] == old(fds[i]).(revents := Polled(ready, old(fds[i])) * old(fds[i]).events)
  {
    ghost var was := fds[..];
    for i := 0 to fds.Length
      invariant forall k | i <= k < fds.Length :: fds[k] == was[k]
      invariant forall k | 0 <= k < i :: fds[k] == was[k].(revents := Share(ready, was[k]))
    {
      assert was[i] in was;
      MergePreservesMeaning(ready, was, i, merge[m[was[i].fd]]);
      var j := m[fds[i].fd];
      fds[i] := fds[i].(revents := answered[j].revents * fds[i].events);
    }
  }
}
