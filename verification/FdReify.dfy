/** Lazy registration of file descriptors (ev.c): starting and stopping I/O watchers
  * only queues the fd, and fd_reify brings the backend in line.
  */
module FdReify {
  import opened Watchers
  import opened Pending
  import opened Backends
  import opened Reports

  const EV_ANFD_REIFY: Mask := 1

  ghost predicate NoDup<T>(s: seq<T>) {
    forall i, j :: 0 <= i < j < |s| ==> s[i] != s[j]
  }

  /** The events any of the watchers wants. */
  ghost function OrEvents(ws: seq<Watcher>): Mask
    reads ws`events
  {
    if ws == [] then 0 else OrEvents(ws[..|ws| - 1]) | ws[|ws| - 1].events
  }

  lemma NoDupTail<T>(x: T, rest: seq<T>)
    requires NoDup([x] + rest)
    ensures NoDup(rest) && x !in rest
  {
    var s := [x] + rest;
    forall i, j | 0 <= i < j < |rest| ensures rest[i] != rest[j] {
      assert s[i + 1] != s[j + 1];
    }
    forall j | 0 <= j < |rest| ensures rest[j] != x {
      assert s[0] != s[j + 1];
    }
  }

  lemma NoDupSnoc(s: seq<nat>, x: nat)
    requires NoDup(s) && x !in s
    ensures NoDup(s + [x])
  {
  }

  lemma InTail(x: nat, rest: seq<nat>)
    ensures forall y: nat :: y != x ==> (y in [x] + rest <==> y in rest)
  {
  }

  lemma StaysQueued(reify: Mask, flags: Mask)
    requires flags & EV_ANFD_REIFY != 0
    ensures reify | flags != 0
  {
  }

  class Fds {
    var anfds: seq<Anfd>
    var fdchanges: seq<nat>
    const pend: Pendings
    /** Which of the two backends is in use. */
    const usePoll: bool
    const polls: PollSet
    const selects: SelectSet

    constructor (pend: Pendings, usePoll: bool)
      requires pend.Valid()
      ensures Valid() && this.pend == pend && this.usePoll == usePoll && anfds == [] && fdchanges == []
      ensures fresh(polls) && fresh(selects)
    {
      this.pend, this.usePoll := pend, usePoll;
      anfds, fdchanges := [], [];
      polls := new PollSet();
      selects := new SelectSet();
    }

    /** The mask the backend watches fd with. */
    ghost function Interest(fd: nat): Mask
      requires polls.Valid()
      reads polls, selects
    {
      if usePoll then polls.Interest(fd) else selects.Interest(fd)
    }

    ghost predicate ListOk(fd: nat)
      requires fd < |anfds|
      reads this`anfds, pend`known, pend.known`active, pend.known`fd, pend.known`events
    {
      HeadOk(fd, anfds[fd].head)
    }

    /** A list of started watchers of this fd. */
    ghost predicate HeadOk(fd: nat, head: seq<Watcher>)
      reads pend`known, pend.known`active, pend.known`fd, pend.known`events
    {
      NoDup(head) && forall w :: w in head ==> w in pend.known && w.fd == fd && w.active == 1 && IoMask(w.events)
    }

    /** The backend has the mask the anfd says, which is out of date only while the
      * fd is queued.
      */
    ghost predicate FdOk(fd: nat, queue: seq<nat>)
      requires polls.Valid()
      reads this`anfds, pend`known, pend.known`active, pend.known`fd, pend.known`events, polls, selects
    {
      if fd < |anfds| then
        && ListOk(fd) && Interest(fd) == anfds[fd].events
        && (anfds[fd].reify != 0 <==> fd in queue)
        && (fd !in queue ==> OrEventsOf(fd) == anfds[fd].events)
      else
        Interest(fd) == 0 && fd !in queue
    }

    ghost function OrEventsOf(fd: nat): Mask
      requires fd < |anfds| && forall w :: w in anfds[fd].head ==> w in pend.known
      reads this`anfds, pend`known, pend.known`active, pend.known`fd, pend.known`events
    {
      OrEvents(anfds[fd].head)
    }

    /** Everything is in order with the fds of queue still to be reified. */
    ghost predicate Queueing(queue: seq<nat>)
      reads this`anfds, pend`known, pend.known`active, pend.known`fd, pend.known`events, polls, selects
    {
      polls.Valid() && selects.Valid() && NoDup(queue) && forall fd: nat :: FdOk(fd, queue)
    }

    ghost predicate Valid()
      reads this, pend, pend.known, polls, selects
    {
      pend.Valid() && Queueing(fdchanges)
    }

    method BackendModify(fd: nat, oev: Mask, nev: Mask)
      requires polls.Valid() && selects.Valid() && oev == Interest(fd) && IoMask(nev)
      modifies polls, selects
      ensures polls.Valid() && selects.Valid() && Interest(fd) == nev
      ensures forall x: nat :: x != fd ==> Interest(x) == old(Interest(x))
    {
      if usePoll {
        polls.Modify(fd, oev, nev);
      } else {
        selects.Modify(fd, oev, nev);
      }
    }

    method Collect(fd: nat) returns (events: Mask)
      requires fd < |anfds| && ListOk(fd)
      ensures events == OrEventsOf(fd) && IoMask(events)
    {
      events := 0;
      var ws := anfds[fd].head;
      for i := 0 to |ws|
        invariant events == OrEvents(ws[..i]) && IoMask(events)
      {
        assert ws[i] in ws && ws[..i + 1][..i] == ws[..i];
        events := events | ws[i].events;
      }
      assert ws[..|ws|] == ws;
    }

    method Apply(fd: nat, events: Mask, changed: bool)
      requires polls.Valid() && selects.Valid() && fd < |anfds| && Interest(fd) == anfds[fd].events && IoMask(events)
      requires !changed ==> anfds[fd].events == events
      modifies this`anfds, polls, selects
      ensures polls.Valid() && selects.Valid() && Interest(fd) == events
      ensures anfds == old(anfds)[fd := Anfd(old(anfds)[fd].head, events, 0)]
      ensures forall x: nat :: x != fd ==> Interest(x) == old(Interest(x))
    {
      var anfd := anfds[fd];
      anfds := anfds[fd := Anfd(anfd.head, events, 0)];
      if changed {
        BackendModify(fd, anfd.events, events);
      }
    }

    /** One turn of fd_reify. */
    method ReifyOne(fd: nat, ghost rest: seq<nat>)
      requires Queueing([fd] + rest)
      modifies this`anfds, polls, selects
      ensures Queueing(rest) && |anfds| == |old(anfds)|
      ensures forall x :: 0 <= x < |anfds| ==> anfds[x].head == old(anfds)[x].head
    {
      assert FdOk(fd, [fd] + rest) && ([fd] + rest)[0] == fd;
      var anfd := anfds[fd];
      var events := Collect(fd);
      Apply(fd, events, anfd.events != events || anfd.reify & EV_IOFDSET != 0);
      NoDupTail(fd, rest);
      InTail(fd, rest);
      forall x: nat ensures FdOk(x, rest) {
        assert old(FdOk(x, [fd] + rest));
        if x < |anfds| {
          assert ListOk(x) by {
            assert old(ListOk(x));
          }
          assert x != fd ==> anfds[x] == old(anfds)[x];
        }
      }
    }

    /** fd_reify: afterwards the backend watches every fd with exactly the events its
      * started watchers want.
      */
    method Reify()
      requires Valid()
      modifies this`anfds, this`fdchanges, polls, selects
      ensures Valid() && fdchanges == [] && |anfds| == |old(anfds)|
      ensures forall fd :: 0 <= fd < |anfds| ==> anfds[fd].head == old(anfds)[fd].head && anfds[fd].reify == 0
      ensures forall fd: nat :: fd < |anfds| ==> InLine(fd)
    {
      assert fdchanges[0..] == fdchanges;
      for i := 0 to |fdchanges|
        invariant fdchanges == old(fdchanges) && Queueing(fdchanges[i..]) && |anfds| == |old(anfds)|
        invariant forall fd :: 0 <= fd < |anfds| ==> anfds[fd].head == old(anfds)[fd].head
      {
        assert fdchanges[i..] == [fdchanges[i]] + fdchanges[i + 1..];
        ReifyOne(fdchanges[i], fdchanges[i + 1..]);
      }
      fdchanges := [];
      forall fd: nat | fd < |anfds| ensures InLine(fd) && anfds[fd].reify == 0 {
        assert FdOk(fd, []);
      }
    }

    /** The backend watches fd with the OR of what its started watchers want. */
    ghost predicate InLine(fd: nat)
      requires polls.Valid() && fd < |anfds|
      reads this`anfds, pend`known, pend.known`active, pend.known`fd, pend.known`events, polls, selects
    {
      ListOk(fd) && Interest(fd) == OrEventsOf(fd)
    }

    /** fd_change: queues the fd unless it is queued already. */
    method FdChange(fd: nat, flags: Mask)
      requires fd < |anfds| && NoDup(fdchanges) && (anfds[fd].reify != 0 <==> fd in fdchanges)
      requires anfds[fd].reify | flags != 0
      modifies this`anfds, this`fdchanges
      ensures |anfds| == |old(anfds)| && anfds[fd].reify == old(anfds)[fd].reify | flags
      ensures anfds == old(anfds)[fd := Anfd(old(anfds)[fd].head, old(anfds)[fd].events, anfds[fd].reify)]
      ensures NoDup(fdchanges) && fdchanges == old(fdchanges) + if fd in old(fdchanges) then [] else [fd]
    {
      var anfd := anfds[fd];
      anfds := anfds[fd := Anfd(anfd.head, anfd.events, anfd.reify | flags)];
      if anfd.reify == 0 {
        NoDupSnoc(fdchanges, fd);
        fdchanges := fdchanges + [fd];
      } else {
        assert fdchanges + [] == fdchanges;
      }
    }

    /** array_needsize: new entries are zero. */
    method Reserve(fd: nat)
      requires Valid()
      modifies this`anfds
      ensures Valid() && fd < |anfds| && |old(anfds)| <= |anfds| && anfds[..|old(anfds)|] == old(anfds)
      ensures forall x :: |old(anfds)| <= x < |anfds| ==> anfds[x] == Anfd([], 0, 0)
    {
      if fd >= |anfds| {
        anfds := anfds + seq(fd + 1 - |anfds|, _ => Anfd([], 0, 0));
      }
      forall x: nat ensures FdOk(x, fdchanges) {
        assert old(FdOk(x, fdchanges));
        if x < |old(anfds)| {
          assert anfds[x] == old(anfds)[x] && old(ListOk(x));
        }
      }
    }

    /** The started watchers of an fd. */
    ghost function Head(fd: nat): seq<Watcher>
      reads this`anfds
    {
      if fd < |anfds| then anfds[fd].head else []
    }

    ghost predicate Unlisted(w: Watcher)
      reads this`anfds
    {
      forall x: nat :: w !in Head(x)
    }

    lemma InactiveUnlisted(w: Watcher)
      requires Valid() && w.active == 0
      ensures Unlisted(w)
    {
      forall x: nat ensures w !in Head(x) {
        assert FdOk(x, fdchanges);
      }
    }

    /** ev_start. */
    method EvStart(w: Watcher)
      requires Valid() && w != pend.pendingW && (w.pending == 0 || w in pend.known) && Unlisted(w)
      modifies pend`known, w`active, w`priority
      ensures Valid() && w.active == 1 && pend.known == old(pend.known) + {w}
    {
      pend.PriAdjust(w);
      w.active := 1;
      forall x: nat ensures FdOk(x, fdchanges) {
        assert old(FdOk(x, fdchanges)) && w !in Head(x);
        assert x < |anfds| ==> old(ListOk(x));
      }
    }

    /** The list of an fd changes, and the fd is queued. */
    method Relist(fd: nat, head: seq<Watcher>, flags: Mask)
      requires Valid() && fd < |anfds| && HeadOk(fd, head) && flags & EV_ANFD_REIFY != 0
      modifies this`anfds, this`fdchanges
      ensures Valid() && fd in fdchanges && |anfds| == |old(anfds)| && anfds[fd].head == head
      ensures forall x :: 0 <= x < |anfds| && x != fd ==> anfds[x] == old(anfds)[x]
    {
      assert FdOk(fd, fdchanges);
      anfds := anfds[fd := anfds[fd].(head := head)];
      StaysQueued(anfds[fd].reify, flags);
      FdChange(fd, flags);
      forall x: nat ensures FdOk(x, fdchanges) {
        assert old(FdOk(x, fdchanges));
        assert x < |anfds| && x != fd ==> anfds[x] == old(anfds)[x] && old(HeadOk(x, anfds[x].head));
      }
    }

    /** wlist_add and fd_change. */
    method Insert(w: Watcher)
      requires Valid() && Unlisted(w) && w.active == 1 && w in pend.known && w.fd < |anfds|
      requires w.events & !(EV_IOFDSET | EV_READ | EV_WRITE) == 0
      modifies this`anfds, this`fdchanges, w`events
      ensures Valid() && w.events == old(w.events) & !EV_IOFDSET && w.fd in fdchanges
      ensures |anfds| == |old(anfds)| && Head(w.fd) == [w] + old(Head(w.fd))
      ensures forall x: nat :: x != w.fd ==> Head(x) == old(Head(x))
    {
      var flags := (w.events & EV_IOFDSET) | EV_ANFD_REIFY;
      HideSetFlag(w);
      assert FdOk(w.fd, fdchanges) && w !in Head(w.fd);
      Relist(w.fd, [w] + anfds[w.fd].head, flags);
    }

    /** EV__IOFDSET is taken off the watcher's events. */
    method HideSetFlag(w: Watcher)
      requires Valid() && Unlisted(w) && w.events & !(EV_IOFDSET | EV_READ | EV_WRITE) == 0
      modifies w`events
      ensures Valid() && w.events == old(w.events) & !EV_IOFDSET && IoMask(w.events)
    {
      w.events := w.events & !EV_IOFDSET;
      forall x: nat ensures FdOk(x, fdchanges) {
        assert old(FdOk(x, fdchanges)) && w !in Head(x);
        assert x < |anfds| ==> old(HeadOk(x, anfds[x].head));
      }
    }

    /** A watcher that is active as an I/O watcher is on the list of its fd. */
    ghost predicate Mine(w: Watcher)
      reads this`anfds, pend`known, w
    {
      && w != pend.pendingW && (w.pending == 0 || w in pend.known)
      && (w.active != 0 ==> w in Head(w.fd) && w in pend.known)
    }

    /** ev_io_start: nothing but the list and the queue changes. */
    method IoStart(w: Watcher)
      requires Valid() && Mine(w) && w.events & !(EV_IOFDSET | EV_READ | EV_WRITE) == 0
      modifies this`anfds, this`fdchanges, pend`known, w`active, w`priority, w`events
      ensures Valid() && Mine(w) && w.active != 0
      ensures old(w.active) != 0 ==> anfds == old(anfds) && fdchanges == old(fdchanges)
      ensures old(w.active) == 0 ==> w.fd in fdchanges && w.events == old(w.events) & !EV_IOFDSET
      ensures old(w.active) == 0 ==> Head(w.fd) == [w] + old(Head(w.fd))
      ensures old(w.active) == 0 ==> forall x: nat :: x != w.fd ==> Head(x) == old(Head(x))
    {
      if w.active != 0 {
        return;
      }
      InactiveUnlisted(w);
      EvStart(w);
      Reserve(w.fd);
      assert forall fd: nat :: Head(fd) == old(Head(fd));
      Insert(w);
    }

    /** ev_io_stop; a watcher that was never started stays as it is. */
    method IoStop(w: Watcher)
      requires Valid() && Mine(w)
      modifies this`anfds, this`fdchanges, pend`queues, pend`trace, w`active, w`pending
      ensures Valid() && w.active == 0 && w.pending == 0 && pend.trace == old(pend.trace) + [Cleared(w)]
      ensures old(w.active) == 0 ==> anfds == old(anfds) && fdchanges == old(fdchanges)
      ensures old(w.active) != 0 ==> w.fd in fdchanges
      ensures old(w.active) != 0 ==> |anfds| == |old(anfds)| && Head(w.fd) == Del(old(Head(w.fd)), w)
      ensures old(w.active) != 0 ==> forall x :: 0 <= x < |anfds| && x != w.fd ==> anfds[x] == old(anfds)[x]
    {
      ClearPending(w);
      if w.active == 0 {
        return;
      }
      Unlink(w);
      EvStop(w);
    }

    method ClearPending(w: Watcher)
      requires Valid() && (w.pending > 0 ==> w in pend.known)
      modifies pend`queues, pend`trace, w`pending
      ensures Valid() && w.pending == 0 && pend.trace == old(pend.trace) + [Cleared(w)]
    {
      var _ := pend.ClearPending(w);
      forall x: nat ensures FdOk(x, fdchanges) {
        assert old(FdOk(x, fdchanges));
        assert x < |anfds| ==> old(ListOk(x));
      }
    }

    /** wlist_del and fd_change. */
    method Unlink(w: Watcher)
      requires Valid() && w in Head(w.fd) && w in pend.known
      modifies this`anfds, this`fdchanges
      ensures Valid() && Unlisted(w) && w.fd in fdchanges
      ensures |anfds| == |old(anfds)| && Head(w.fd) == Del(old(Head(w.fd)), w)
      ensures forall x :: 0 <= x < |anfds| && x != w.fd ==> anfds[x] == old(anfds)[x]
    {
      var fd := w.fd;
      forall x: nat | x != fd ensures w !in Head(x) {
        assert FdOk(x, fdchanges);
      }
      assert FdOk(fd, fdchanges);
      assert HeadOk(fd, anfds[fd].head);
      DelDrops(anfds[fd].head, w);
      assert HeadOk(fd, Del(anfds[fd].head, w));
      Relist(fd, Del(anfds[fd].head, w), EV_ANFD_REIFY);
      forall x: nat ensures w !in Head(x) {
        assert x != fd ==> old(w !in Head(x));
      }
    }

    /** ev_stop. */
    method EvStop(w: Watcher)
      requires Valid() && Unlisted(w) && w in pend.known
      modifies w`active
      ensures Valid() && w.active == 0
    {
      w.active := 0;
      forall x: nat ensures FdOk(x, fdchanges) {
        assert old(FdOk(x, fdchanges)) && w !in Head(x);
        assert x < |anfds| ==> old(ListOk(x));
      }
    }

    ghost function Events(): Wants
      reads pend`known, pend.known`events
    {
      map w | w in pend.known :: w.events
    }

    method FeedWanted(w: Watcher, revents: Mask)
      requires Valid() && w in pend.known
      modifies pend`queues, pend`trace, pend.known`pending
      ensures Valid() && pend.trace == old(pend.trace) + FeedOf(Events(), w, revents)
    {
      var ev := w.events & revents;
      FeedSome(w, ev);
      WantedIs(Events(), w, revents, ev);
    }

    /** ev_feed_event does not touch the fds. */
    method Feed(w: Watcher, ev: Mask)
      requires Valid() && w in pend.known
      modifies pend`queues, pend`trace, w`pending
      ensures Valid() && pend.trace == old(pend.trace) + [Fed(w, ev)]
    {
      pend.FeedKnown(w, ev);
    }

    method FeedSome(w: Watcher, ev: Mask)
      requires Valid() && w in pend.known
      modifies pend`queues, pend`trace, pend.known`pending
      ensures Valid() && pend.trace == old(pend.trace) + if ev != 0 then [Fed(w, ev)] else []
    {
      if ev != 0 {
        Feed(w, ev);
      } else {
        assert pend.trace + [] == pend.trace;
      }
    }

    /** fd_event: the started watchers of an fd get those of the reported events that
      * they want, unless the fd is queued and the report may be out of date.
      */
    method FdEvent(fd: nat, revents: Mask)
      requires Valid() && fd < |anfds|
      modifies pend`queues, pend`trace, pend.known`pending
      ensures Valid() && pend.trace == old(pend.trace) + FdFeeds(Events(), anfds[fd], revents)
    {
      var anfd := anfds[fd];
      if anfd.reify == 0 {
        assert FdOk(fd, fdchanges);
        FeedHead(anfd.head, revents);
      } else {
        assert pend.trace + [] == pend.trace;
      }
    }

    method FeedHead(ws: seq<Watcher>, revents: Mask)
      requires Valid() && forall w :: w in ws ==> w in pend.known
      modifies pend`queues, pend`trace, pend.known`pending
      ensures Valid() && pend.trace == old(pend.trace) + FedTo(Events(), ws, revents)
    {
      ghost var t := pend.trace;
      assert t + [] == t;
      for i := 0 to |ws|
        invariant Valid() && pend.trace == t + FedTo(Events(), ws[..i], revents)
      {
        FedToNext(t, Events(), ws, i, revents);
        FeedWanted(ws[i], revents);
      }
      assert ws[..|ws|] == ws;
    }

    lemma PolledKnown(i: nat)
      requires Valid() && usePoll && i < |polls.polls|
      ensures polls.polls[i].fd < |anfds|
    {
      var fd := polls.polls[i].fd;
      assert FdOk(fd, fdchanges);
    }

    lemma PolledApart(i: nat, j: nat)
      requires polls.Valid() && i < j < |polls.polls|
      ensures polls.polls[i].fd != polls.polls[j].fd
    {
    }

    /** One result of poll. */
    method PollResult(i: nat, revents: Mask)
      requires Valid() && usePoll && i < |polls.polls| && polls.polls[i].fd < |anfds| && revents != 0
      modifies this`anfds, this`fdchanges, pend`queues, pend`trace, pend.known`active, pend.known`pending
      ensures Valid() && |anfds| == |old(anfds)|
      ensures forall j :: i < j < |polls.polls| && polls.polls[j].fd < |anfds| ==>
        anfds[polls.polls[j].fd] == old(anfds)[polls.polls[j].fd]
      ensures Events() == old(Events())
      ensures pend.trace == old(pend.trace) + FeedsAt(Events(), old(anfds), polls.polls[i].fd, revents)
    {
      var fd := polls.polls[i].fd;
      forall j | i < j < |polls.polls| ensures polls.polls[j].fd != fd {
        PolledApart(i, j);
      }
      if revents & POLLNVAL != 0 {
        FdKill(fd);
      } else {
        FdEvent(fd, FromResult(revents));
      }
    }

    /** The loop of poll_poll over the results: it stops after the last of the res
      * results, never past the end, and every watcher is fed what was reported for
      * its fd.
      */
    method PollResults(revents: seq<Mask>, res: nat)
      requires Valid() && usePoll && |revents| == |polls.polls| && res == Nonzero(revents)
      modifies this`anfds, this`fdchanges, pend`queues, pend`trace, pend.known`active, pend.known`pending
      ensures Valid() && |anfds| == |old(anfds)|
      ensures pend.trace == old(pend.trace) + AllFeeds(Events(), polls.polls, old(anfds), revents)
      ensures PollTold(Events(), polls.polls, old(anfds), revents, pend.trace[|old(pend.trace)|..])
    {
      var left, p := res, 0;
      forall i | 0 <= i < |polls.polls| ensures polls.polls[i].fd < |anfds| {
        PolledKnown(i);
      }
      ghost var t, wants, start := pend.trace, Events(), anfds;
      ReportedStart(t, wants, polls.polls, start, revents);
      assert revents[0..] == revents;
      while left > 0
        invariant p <= |revents| && left == Nonzero(revents[p..]) && wants == Events()
        invariant Valid() && |anfds| == |start| && Reported(t, wants, polls.polls, start, revents, p, pend.trace)
        invariant forall j :: p <= j < |polls.polls| ==>
          polls.polls[j].fd < |anfds| && anfds[polls.polls[j].fd] == start[polls.polls[j].fd]
        decreases |revents| - p
      {
        assert p < |revents| && revents[p..][0] == revents[p] && revents[p..][1..] == revents[p + 1..];
        ReportedNext(t, wants, polls.polls, start, revents, p, pend.trace);
        if revents[p] != 0 {
          left := left - 1;
          PollResult(p, revents[p]);
        } else {
          assert pend.trace + [] == pend.trace;
        }
        p := p + 1;
      }
      ReportedEnd(t, wants, polls.polls, start, revents, p, pend.trace);
      AllTold(start, revents);
      NewFeeds(t, AllFeeds(wants, polls.polls, start, revents));
    }

    lemma AllTold(start: seq<Anfd>, revents: seq<Mask>)
      requires polls.Valid() && |revents| == |polls.polls|
      ensures PollTold(Events(), polls.polls, start, revents, AllFeeds(Events(), polls.polls, start, revents))
    {
      forall j, k | 0 <= j < k < |polls.polls| ensures polls.polls[j].fd != polls.polls[k].fd {
        PolledApart(j, k);
      }
      PollTells(Events(), polls.polls, start, revents);
    }

    /** A started watcher is in the list of its fd only. */
    lemma OnlyThere(fd: nat, w: Watcher)
      requires Valid() && fd < |anfds| && w in anfds[fd].head
      ensures OnlyAt(anfds, fd, w) && w in Events() && w.fd == fd
    {
      assert FdOk(fd, fdchanges);
      forall x | 0 <= x < |anfds| && x != fd ensures w !in anfds[x].head {
        assert FdOk(x, fdchanges);
      }
    }

    /** The results hold no more bits than were asked for. */
    ghost predicate Asked(ro: seq<set<nat>>, wo: seq<set<nat>>)
      reads selects
    {
      && |ro| == |wo| == |selects.ri|
      && forall fd: nat :: SelectBits(ro, wo, fd) != 0 ==> selects.Interest(fd) != 0
    }

    /** One bit of the results of select. */
    method SelectResult(ro: seq<set<nat>>, wo: seq<set<nat>>, fd: nat)
      requires Valid() && !usePoll && Asked(ro, wo) && fd / NFDBITS < |ro|
      modifies pend`queues, pend`trace, pend.known`pending
      ensures Valid() && pend.trace == old(pend.trace) + SelectFeed(Events(), anfds, ro, wo, fd)
    {
      var word, mask := fd / NFDBITS, fd % NFDBITS;
      var events: Mask := 0;
      if mask in ro[word] {
        events := events | EV_READ;
      }
      if mask in wo[word] {
        events := events | EV_WRITE;
      }
      assert events == SelectBits(ro, wo, fd);
      if events != 0 {
        assert FdOk(fd, fdchanges);
        FdEvent(fd, events);
      } else {
        assert pend.trace + [] == pend.trace;
      }
    }

    /** The bits of one word of the results, from the top. */
    method SelectWord(ro: seq<set<nat>>, wo: seq<set<nat>>, word: nat, ghost top: nat, ghost t: seq<Happening>)
      requires Valid() && !usePoll && Asked(ro, wo) && word < |ro| && word * NFDBITS + NFDBITS <= top
      requires Scanned(t, Events(), anfds, ro, wo, top, word * NFDBITS + NFDBITS, pend.trace)
      modifies pend`queues, pend`trace, pend.known`pending
      ensures Valid() && Events() == old(Events())
      ensures Scanned(t, Events(), anfds, ro, wo, top, word * NFDBITS, pend.trace)
    {
      ghost var wants := Events();
      for bit := NFDBITS downto 0
        invariant Valid() && wants == Events()
        invariant Scanned(t, wants, anfds, ro, wo, top, word * NFDBITS + bit, pend.trace)
      {
        var fd := word * NFDBITS + bit;
        ScannedNext(t, wants, anfds, ro, wo, top, fd, pend.trace);
        SelectResult(ro, wo, fd);
      }
    }

    /** The scan of select_poll: words and bits from the top, skipping empty words;
      * every watcher is fed what was reported for its fd.
      */
    method SelectResults(ro: seq<set<nat>>, wo: seq<set<nat>>)
      requires Valid() && !usePoll && Asked(ro, wo)
      modifies pend`queues, pend`trace, pend.known`pending
      ensures Valid() && pend.trace == old(pend.trace) + SelectFeeds(Events(), anfds, ro, wo, |ro| * NFDBITS, 0)
      ensures SelectTold(Events(), anfds, ro, wo, pend.trace[|old(pend.trace)|..])
    {
      ghost var t, wants, top := pend.trace, Events(), |ro| * NFDBITS;
      ScannedUnfold(t, wants, anfds, ro, wo, top, top, t);
      assert t + [] == t;
      for word := |ro| downto 0
        invariant Valid() && wants == Events() && Scanned(t, wants, anfds, ro, wo, top, word * NFDBITS, pend.trace)
      {
        assert (word + 1) * NFDBITS == word * NFDBITS + NFDBITS <= top;
        if ro[word] != {} || wo[word] != {} {
          SelectWord(ro, wo, word, top, t);
        } else {
          ScannedEmpty(t, wants, anfds, ro, wo, top, word, NFDBITS, pend.trace);
        }
      }
      ScannedUnfold(t, wants, anfds, ro, wo, top, 0, pend.trace);
      SelectTells(wants, anfds, ro, wo);
      NewFeeds(t, SelectFeeds(wants, anfds, ro, wo, top, 0));
    }

    /** fd_kill: the watchers of an invalid fd are stopped and told. */
    method FdKill(fd: nat)
      requires Valid() && fd < |anfds|
      modifies this`anfds, this`fdchanges, pend`queues, pend`trace, pend.known`active, pend.known`pending
      ensures Valid() && |anfds| == |old(anfds)| && anfds[fd].head == []
      ensures forall x :: 0 <= x < |anfds| && x != fd ==> anfds[x] == old(anfds)[x]
      ensures pend.trace == old(pend.trace) + KillFeeds(old(anfds)[fd].head)
    {
      ghost var t := pend.trace;
      while anfds[fd].head != []
        invariant Valid() && |anfds| == |old(anfds)|
        invariant pend.trace + KillFeeds(anfds[fd].head) == t + KillFeeds(old(anfds)[fd].head)
        invariant forall x :: 0 <= x < |anfds| && x != fd ==> anfds[x] == old(anfds)[x]
        decreases |anfds[fd].head|
      {
        KillNext(pend.trace, anfds[fd].head);
        KillFirst(fd);
      }
      assert pend.trace + [] == pend.trace;
    }

    method KillFirst(fd: nat)
      requires Valid() && fd < |anfds| && anfds[fd].head != []
      modifies this`anfds, this`fdchanges, pend`queues, pend`trace, pend.known`active, pend.known`pending
      ensures Valid() && |anfds| == |old(anfds)| && anfds[fd].head == old(anfds)[fd].head[1..]
      ensures forall x :: 0 <= x < |anfds| && x != fd ==> anfds[x] == old(anfds)[x]
      ensures pend.trace == old(pend.trace) + KillOf(old(anfds)[fd].head[0])
    {
      var w := anfds[fd].head[0];
      assert FdOk(fd, fdchanges) && w in Head(fd) && BackKnown(w);
      IoStop(w);
      Feed(w, EV_ERROR | EV_READ | EV_WRITE);
    }

    ghost predicate BackKnown(w: Watcher)
      reads pend`known
    {
      w in pend.known
    }
  }

  /** wlist_del: the list without the first occurrence of w. */
  function Del(ws: seq<Watcher>, w: Watcher): seq<Watcher> {
    if ws == [] then [] else if ws[0] == w then ws[1..] else [ws[0]] + Del(ws[1..], w)
  }

  lemma {:induction false} DelDrops(ws: seq<Watcher>, w: Watcher)
    requires NoDup(ws)
    ensures NoDup(Del(ws, w)) && forall x :: x in Del(ws, w) <==> x in ws && x != w
  {
    if ws != [] {
      var rest := ws[1..];
      assert ws == [ws[0]] + rest;
      NoDupTail(ws[0], rest);
      DelDrops(rest, w);
    }
  }
}
