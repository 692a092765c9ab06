/** What the watchers of a file descriptor get from the results of poll and select
  * (ev_poll.c, ev_select.c), event by event.
  */
module Reports {
  import opened Watchers
  import opened Pending
  import opened Backends

  const EV_ERROR: Mask := 0x80000000

  /** Per fd: the started watchers, the mask the backend has, and why it is queued. */
  datatype Anfd = Anfd(head: seq<Watcher>, events: Mask, reify: Mask)

  function KillOf(w: Watcher): seq<Happening> {
    [Cleared(w), Fed(w, EV_ERROR | EV_READ | EV_WRITE)]
  }

  ghost function KillFeeds(ws: seq<Watcher>): seq<Happening> {
    if ws == [] then [] else KillOf(ws[0]) + KillFeeds(ws[1..])
  }

  lemma KillNext(t: seq<Happening>, ws: seq<Watcher>)
    requires ws != []
    ensures t + KillOf(ws[0]) + KillFeeds(ws[1..]) == t + KillFeeds(ws)
  {
  }

  /** The events each watcher in use wants. */
  type Wants = map<Watcher, Mask>

  ghost function FeedOf(wants: Wants, w: Watcher, revents: Mask): seq<Happening> {
    if w in wants && wants[w] & revents != 0 then [Fed(w, wants[w] & revents)] else []
  }

  lemma WantedIs(wants: Wants, w: Watcher, revents: Mask, ev: Mask)
    requires w in wants && wants[w] & revents == ev
    ensures FeedOf(wants, w, revents) == if ev != 0 then [Fed(w, ev)] else []
  {
  }

  /** The events each watcher of the list gets when revents is reported. */
  ghost function FedTo(wants: Wants, ws: seq<Watcher>, revents: Mask): seq<Happening> {
    if ws == [] then [] else FedTo(wants, ws[..|ws| - 1], revents) + FeedOf(wants, ws[|ws| - 1], revents)
  }

  lemma FedToNext(t: seq<Happening>, wants: Wants, ws: seq<Watcher>, i: nat, revents: Mask)
    requires i < |ws|
    ensures t + FedTo(wants, ws[..i + 1], revents) == t + FedTo(wants, ws[..i], revents) + FeedOf(wants, ws[i], revents)
  {
    assert ws[..i + 1][..i] == ws[..i];
    Regroup(t, FedTo(wants, ws[..i], revents), FeedOf(wants, ws[i], revents));
  }

  lemma Regroup(t: seq<Happening>, a: seq<Happening>, c: seq<Happening>)
    ensures t + (a + c) == t + a + c
  {
  }

  ghost function FdFeeds(wants: Wants, anfd: Anfd, revents: Mask): seq<Happening> {
    if anfd.reify == 0 then FedTo(wants, anfd.head, revents) else []
  }

  /** How many results poll reports. */
  function Nonzero(revents: seq<Mask>): nat {
    if revents == [] then 0 else (if revents[0] != 0 then 1 else 0) + Nonzero(revents[1..])
  }

  ghost function ResultFeeds(wants: Wants, anfd: Anfd, revents: Mask): seq<Happening> {
    if revents == 0 then []
    else if revents & POLLNVAL != 0 then KillFeeds(anfd.head)
    else FdFeeds(wants, anfd, FromResult(revents))
  }

  ghost function FeedsAt(wants: Wants, anfds: seq<Anfd>, fd: nat, revents: Mask): seq<Happening> {
    if fd < |anfds| then ResultFeeds(wants, anfds[fd], revents) else []
  }

  /** What the results of poll feed, fd by fd. */
  ghost function AllFeeds(wants: Wants, polls: seq<PollFd>, anfds: seq<Anfd>, revents: seq<Mask>): seq<Happening>
    requires |polls| == |revents|
  {
    if polls == [] then []
    else
      var n := |polls| - 1;
      AllFeeds(wants, polls[..n], anfds, revents[..n]) + FeedsAt(wants, anfds, polls[n].fd, revents[n])
  }

  /** The first p results have been fed. */
  ghost predicate ReportedSo(t: seq<Happening>, wants: Wants, polls: seq<PollFd>, anfds: seq<Anfd>, revents: seq<Mask>,
                             p: nat, trace: seq<Happening>)
  {
    p <= |polls| == |revents| && trace == t + AllFeeds(wants, polls[..p], anfds, revents[..p])
  }

  ghost predicate ReportedIs(ok: bool, t: seq<Happening>, wants: Wants, polls: seq<PollFd>, anfds: seq<Anfd>,
                             revents: seq<Mask>, p: nat, trace: seq<Happening>)
  {
    forall u {:trigger Unfold(u)} :: Unfold(u) ==> ok == ReportedSo(t, wants, polls, anfds, revents, p, trace)
  }

  /** ReportedSo, folded until Unfold is mentioned. */
  ghost predicate Reported(t: seq<Happening>, wants: Wants, polls: seq<PollFd>, anfds: seq<Anfd>, revents: seq<Mask>,
                           p: nat, trace: seq<Happening>)
  {
    assert ReportedIs(ReportedSo(t, wants, polls, anfds, revents, p, trace), t, wants, polls, anfds, revents, p, trace);
    var ok :| ReportedIs(ok, t, wants, polls, anfds, revents, p, trace);
    ok
  }

  lemma ReportedStart(t: seq<Happening>, wants: Wants, polls: seq<PollFd>, anfds: seq<Anfd>, revents: seq<Mask>)
    requires |polls| == |revents|
    ensures Reported(t, wants, polls, anfds, revents, 0, t)
  {
    assert Unfold(0);
    assert t + [] == t && polls[..0] == [];
  }

  lemma ReportedNext(t: seq<Happening>, wants: Wants, polls: seq<PollFd>, anfds: seq<Anfd>, revents: seq<Mask>, p: nat,
                     trace: seq<Happening>)
    requires Reported(t, wants, polls, anfds, revents, p, trace) && p < |polls| && p < |revents|
    ensures Reported(t, wants, polls, anfds, revents, p + 1, trace + FeedsAt(wants, anfds, polls[p].fd, revents[p]))
  {
    assert Unfold(0);
    assert polls[..p + 1][..p] == polls[..p] && revents[..p + 1][..p] == revents[..p];
    Regroup(t, AllFeeds(wants, polls[..p], anfds, revents[..p]), FeedsAt(wants, anfds, polls[p].fd, revents[p]));
  }

  lemma {:induction false} ReportedEnd(t: seq<Happening>, wants: Wants, polls: seq<PollFd>, anfds: seq<Anfd>,
                                       revents: seq<Mask>, p: nat, trace: seq<Happening>)
    requires p <= |polls| == |revents| && Nonzero(revents[p..]) == 0
    requires Reported(t, wants, polls, anfds, revents, p, trace)
    ensures trace == t + AllFeeds(wants, polls, anfds, revents)
    decreases |polls| - p
  {
    if p == |polls| {
      assert Unfold(0);
      assert polls[..p] == polls && revents[..p] == revents;
    } else {
      assert revents[p..][0] == revents[p] && revents[p..][1..] == revents[p + 1..];
      ReportedNext(t, wants, polls, anfds, revents, p, trace);
      assert trace + [] == trace;
      ReportedEnd(t, wants, polls, anfds, revents, p + 1, trace);
    }
  }

  ghost function SelectFeed(wants: Wants, anfds: seq<Anfd>, ro: seq<set<nat>>, wo: seq<set<nat>>,
                            fd: nat): seq<Happening>
  {
    var bits := SelectBits(ro, wo, fd);
    if bits != 0 && fd < |anfds| then FdFeeds(wants, anfds[fd], bits) else []
  }

  /** What the results feed for the fds below top and from k on, highest first. */
  ghost function SelectFeeds(wants: Wants, anfds: seq<Anfd>, ro: seq<set<nat>>, wo: seq<set<nat>>, top: nat,
                             k: nat): seq<Happening>
    decreases top - k
  {
    if k >= top then [] else SelectFeeds(wants, anfds, ro, wo, top, k + 1) + SelectFeed(wants, anfds, ro, wo, k)
  }

  ghost predicate ScannedIs(ok: bool, t: seq<Happening>, wants: Wants, anfds: seq<Anfd>, ro: seq<set<nat>>,
                            wo: seq<set<nat>>, top: nat, k: nat, trace: seq<Happening>)
  {
    forall u {:trigger Unfold(u)} :: Unfold(u) ==> ok == (trace == t + SelectFeeds(wants, anfds, ro, wo, top, k))
  }

  /** The results from k on have been fed; folded until Unfold is mentioned. */
  ghost predicate Scanned(t: seq<Happening>, wants: Wants, anfds: seq<Anfd>, ro: seq<set<nat>>, wo: seq<set<nat>>,
                          top: nat, k: nat, trace: seq<Happening>)
  {
    assert ScannedIs(trace == t + SelectFeeds(wants, anfds, ro, wo, top, k), t, wants, anfds, ro, wo, top, k, trace);
    var ok :| ScannedIs(ok, t, wants, anfds, ro, wo, top, k, trace);
    ok
  }

  lemma ScannedUnfold(t: seq<Happening>, wants: Wants, anfds: seq<Anfd>, ro: seq<set<nat>>, wo: seq<set<nat>>, top: nat,
                      k: nat, trace: seq<Happening>)
    ensures Scanned(t, wants, anfds, ro, wo, top, k, trace) == (trace == t + SelectFeeds(wants, anfds, ro, wo, top, k))
  {
    assert Unfold(0);
  }

  lemma ScannedNext(t: seq<Happening>, wants: Wants, anfds: seq<Anfd>, ro: seq<set<nat>>, wo: seq<set<nat>>, top: nat,
                    k: nat, trace: seq<Happening>)
    requires k < top && Scanned(t, wants, anfds, ro, wo, top, k + 1, trace)
    ensures Scanned(t, wants, anfds, ro, wo, top, k, trace + SelectFeed(wants, anfds, ro, wo, k))
  {
    var feed := SelectFeed(wants, anfds, ro, wo, k);
    ScannedUnfold(t, wants, anfds, ro, wo, top, k + 1, trace);
    ScannedUnfold(t, wants, anfds, ro, wo, top, k, trace + feed);
    Regroup(t, SelectFeeds(wants, anfds, ro, wo, top, k + 1), feed);
  }

  /** A word without bits feeds nothing. */
  lemma {:induction false} ScannedEmpty(t: seq<Happening>, wants: Wants, anfds: seq<Anfd>, ro: seq<set<nat>>,
                                        wo: seq<set<nat>>, top: nat, word: nat, n: nat, trace: seq<Happening>)
    requires word < |ro| == |wo| && ro[word] == {} && wo[word] == {} && n <= NFDBITS && word * NFDBITS + n <= top
    requires Scanned(t, wants, anfds, ro, wo, top, word * NFDBITS + n, trace)
    ensures Scanned(t, wants, anfds, ro, wo, top, word * NFDBITS, trace)
  {
    if n > 0 {
      var k := word * NFDBITS + n - 1;
      assert k / NFDBITS == word;
      ScannedNext(t, wants, anfds, ro, wo, top, k, trace);
      assert trace + [] == trace;
      ScannedEmpty(t, wants, anfds, ro, wo, top, word, n - 1, trace);
    }
  }

  // ---------- the events a result of poll stands for ----------

  /** poll answers in the terms it was asked in. */
  lemma ResultOfWanted(events: Mask)
    requires IoMask(events)
    ensures FromResult(ToPoll(events)) == events
  {
  }

  lemma ResultOfBoth(a: Mask, c: Mask)
    ensures FromResult(a | c) == FromResult(a) | FromResult(c)
  {
  }

  /** POLLERR and POLLHUP are both events, whatever else is reported. */
  lemma ErrorIsBoth(revents: Mask)
    requires revents & 0x8 != 0 || revents & 0x10 != 0
    ensures FromResult(revents) == EV_READ | EV_WRITE
  {
  }

  /** POLLIN, POLLERR and POLLHUP are EV_READ, POLLOUT, POLLERR and POLLHUP are EV_WRITE. */
  lemma ResultBits(revents: Mask)
    ensures FromResult(revents) & 1 != 0 <==> revents & 0x1 != 0 || revents & 0x8 != 0 || revents & 0x10 != 0
    ensures FromResult(revents) & 2 != 0 <==> revents & 0x4 != 0 || revents & 0x8 != 0 || revents & 0x10 != 0
    ensures FromResult(revents) & !3 == 0
  {
  }

  // ---------- what one watcher is fed ----------

  /** Among the feeds is one of w with an event of b. */
  ghost predicate Gets(feeds: seq<Happening>, w: Watcher, b: Mask) {
    exists k :: 0 <= k < |feeds| && FeedHas(feeds[k], w, b)
  }

  ghost predicate FeedHas(h: Happening, w: Watcher, b: Mask) {
    h.Fed? && h.w == w && Has(h.events, b)
  }

  lemma NewFeeds(t: seq<Happening>, feeds: seq<Happening>)
    ensures (t + feeds)[|t|..] == feeds
  {
  }

  lemma GetsConcat(a: seq<Happening>, c: seq<Happening>, w: Watcher, b: Mask)
    ensures Gets(a + c, w, b) <==> Gets(a, w, b) || Gets(c, w, b)
  {
    if Gets(a, w, b) {
      var k :| 0 <= k < |a| && FeedHas(a[k], w, b);
      assert (a + c)[k] == a[k];
    }
    if Gets(c, w, b) {
      var k :| 0 <= k < |c| && FeedHas(c[k], w, b);
      assert (a + c)[|a| + k] == c[k];
    }
  }

  lemma HasNone(b: Mask)
    ensures !Has(0, b)
  {
    HasUnfold(0, b);
  }

  lemma GetsFeed(x: Watcher, ev: Mask, w: Watcher, b: Mask)
    ensures Gets([Fed(x, ev)], w, b) <==> x == w && Has(ev, b)
  {
    assert [Fed(x, ev)][0] == Fed(x, ev);
    if x == w && Has(ev, b) {
      assert FeedHas([Fed(x, ev)][0], w, b);
    }
  }

  lemma GetsFeedOf(wants: Wants, x: Watcher, revents: Mask, ev: Mask, w: Watcher, b: Mask)
    requires x in wants && wants[x] & revents == ev
    ensures Gets(FeedOf(wants, x, revents), w, b) <==> x == w && Has(ev, b)
  {
    WantedIs(wants, x, revents, ev);
    HasNone(b);
    GetsFeed(x, ev, w, b);
  }

  /** Every watcher of the list gets what it wants of the report, and nobody else does. */
  lemma {:induction false} GetsFedTo(wants: Wants, ws: seq<Watcher>, revents: Mask, w: Watcher, b: Mask)
    ensures Gets(FedTo(wants, ws, revents), w, b) <==> w in ws && w in wants && Has(wants[w] & revents, b)
  {
    if ws != [] {
      var front, x := ws[..|ws| - 1], ws[|ws| - 1];
      assert ws == front + [x];
      GetsFedTo(wants, front, revents, w, b);
      if x in wants {
        GetsFeedOf(wants, x, revents, wants[x] & revents, w, b);
      }
      GetsConcat(FedTo(wants, front, revents), FeedOf(wants, x, revents), w, b);
    }
  }

  lemma GetsKillOf(x: Watcher, w: Watcher, b: Mask)
    requires b in {1, 2, 0x80000000}
    ensures Gets(KillOf(x), w, b) <==> x == w
  {
    var h := KillOf(x)[1];
    assert h == Fed(x, EV_ERROR | EV_READ | EV_WRITE) && KillOf(x)[0].Cleared?;
    HasUnfold(h.events, b);
    if x == w {
      assert FeedHas(KillOf(x)[1], w, b);
    }
  }

  lemma {:induction false} GetsKillFeeds(ws: seq<Watcher>, w: Watcher, b: Mask)
    requires b in {1, 2, 0x80000000}
    ensures Gets(KillFeeds(ws), w, b) <==> w in ws
  {
    if ws != [] {
      assert ws == [ws[0]] + ws[1..];
      GetsKillOf(ws[0], w, b);
      GetsKillFeeds(ws[1..], w, b);
      GetsConcat(KillOf(ws[0]), KillFeeds(ws[1..]), w, b);
    }
  }

  /** w is told of an event b of its fd: always when the fd is invalid, otherwise when it
    * wants it, unless the fd is queued.
    */
  ghost predicate Told(wants: Wants, anfd: Anfd, revents: Mask, result: Mask, w: Watcher, b: Mask) {
    if revents & POLLNVAL != 0 then true else anfd.reify == 0 && w in wants && Has(wants[w] & result, b)
  }

  lemma GetsResult(wants: Wants, anfd: Anfd, revents: Mask, result: Mask, feeds: seq<Happening>, w: Watcher, b: Mask)
    requires b in {1, 2} && (revents == 0 ==> result == 0)
    requires feeds == if revents == 0 then [] else if revents & POLLNVAL != 0 then KillFeeds(anfd.head)
                      else FdFeeds(wants, anfd, result)
    ensures Gets(feeds, w, b) <==> w in anfd.head && Told(wants, anfd, revents, result, w, b)
  {
    if revents == 0 {
      NothingWanted(wants, w, b);
    } else if revents & POLLNVAL != 0 {
      GetsKillFeeds(anfd.head, w, b);
    } else if anfd.reify == 0 {
      GetsFedTo(wants, anfd.head, result, w, b);
    }
  }

  lemma NothingWanted(wants: Wants, w: Watcher, b: Mask)
    ensures w in wants ==> !Has(wants[w] & 0, b)
  {
    HasNone(b);
    assert w in wants ==> wants[w] & 0 == 0;
  }

  // ---------- poll ----------

  /** w is in the list of fd and in no other. */
  ghost predicate OnlyAt(anfds: seq<Anfd>, fd: nat, w: Watcher) {
    fd < |anfds| && w in anfds[fd].head && forall x :: 0 <= x < |anfds| && x != fd ==> w !in anfds[x].head
  }

  lemma {:induction false} GetsNotThere(wants: Wants, polls: seq<PollFd>, anfds: seq<Anfd>, revents: seq<Mask>, fd: nat,
                                        w: Watcher, b: Mask)
    requires |polls| == |revents| && OnlyAt(anfds, fd, w) && b in {1, 2}
    requires forall j :: 0 <= j < |polls| ==> polls[j].fd != fd
    ensures !Gets(AllFeeds(wants, polls, anfds, revents), w, b)
  {
    if polls != [] {
      var n := |polls| - 1;
      GetsNotThere(wants, polls[..n], anfds, revents[..n], fd, w, b);
      GetsAt(wants, anfds, polls[n].fd, revents[n], fd, w, b);
      GetsConcat(AllFeeds(wants, polls[..n], anfds, revents[..n]), FeedsAt(wants, anfds, polls[n].fd, revents[n]), w,
                 b);
    }
  }

  lemma GetsAt(wants: Wants, anfds: seq<Anfd>, x: nat, revents: Mask, fd: nat, w: Watcher, b: Mask)
    requires OnlyAt(anfds, fd, w) && b in {1, 2}
    ensures Gets(FeedsAt(wants, anfds, x, revents), w, b) <==>
      x == fd && Told(wants, anfds[fd], revents, FromResult(revents), w, b)
  {
    if x < |anfds| {
      GetsResult(wants, anfds[x], revents, FromResult(revents), FeedsAt(wants, anfds, x, revents), w, b);
    }
  }

  /** w is fed by the result for its own fd, and by no other. */
  lemma {:induction false} GetsPolled(wants: Wants, polls: seq<PollFd>, anfds: seq<Anfd>, revents: seq<Mask>, i: nat,
                                      w: Watcher, b: Mask)
    requires i < |polls| == |revents| && OnlyAt(anfds, polls[i].fd, w) && b in {1, 2}
    requires forall j, k :: 0 <= j < k < |polls| ==> polls[j].fd != polls[k].fd
    ensures Gets(AllFeeds(wants, polls, anfds, revents), w, b) <==>
      Told(wants, anfds[polls[i].fd], revents[i], FromResult(revents[i]), w, b)
  {
    var n := |polls| - 1;
    if i == n {
      GetsNotThere(wants, polls[..n], anfds, revents[..n], polls[i].fd, w, b);
    } else {
      GetsPolled(wants, polls[..n], anfds, revents[..n], i, w, b);
    }
    GetsAt(wants, anfds, polls[n].fd, revents[n], polls[i].fd, w, b);
    GetsConcat(AllFeeds(wants, polls[..n], anfds, revents[..n]), FeedsAt(wants, anfds, polls[n].fd, revents[n]), w, b);
  }

  /** A single event is common to two masks when it is in both. */
  lemma OneBit(x: Mask, y: Mask, b: Mask)
    requires b in {1, 2}
    ensures Has(x & y, b) <==> Has(x, b) && Has(y, b)
  {
    HasUnfold(x & y, b);
    HasUnfold(x, b);
    HasUnfold(y, b);
  }

  /** What a result of poll gives a watcher of the fd: the event b, for which poll is asked
    * with the bit asked. An invalid fd gives it all, a queued one nothing.
    */
  ghost predicate PollGives(wants: Wants, anfd: Anfd, revents: Mask, w: Watcher, b: Mask, asked: Mask) {
    || revents & 0x20 != 0
    || (&& anfd.reify == 0 && w in wants && wants[w] & b != 0
        && (revents & asked != 0 || revents & 0x8 != 0 || revents & 0x10 != 0))
  }

  lemma ToldPoll(wants: Wants, anfd: Anfd, revents: Mask, result: Mask, w: Watcher, b: Mask, asked: Mask)
    requires (b == 1 && asked == 0x1) || (b == 2 && asked == 0x4)
    requires result & b != 0 <==> revents & asked != 0 || revents & 0x8 != 0 || revents & 0x10 != 0
    ensures Told(wants, anfd, revents, result, w, b) <==> PollGives(wants, anfd, revents, w, b, asked)
  {
    if w in wants {
      OneBit(wants[w], result, b);
      HasUnfold(wants[w], b);
      HasUnfold(result, b);
    }
  }

  /** Every watcher of a polled fd gets EV_READ and EV_WRITE just when the result for it says so. */
  ghost predicate PollTold(wants: Wants, polls: seq<PollFd>, anfds: seq<Anfd>, revents: seq<Mask>,
                           feeds: seq<Happening>)
  {
    forall i: nat, w :: w in wants && i < |polls| && i < |revents| && OnlyAt(anfds, polls[i].fd, w) ==>
      && (Gets(feeds, w, 1) <==> PollGives(wants, anfds[polls[i].fd], revents[i], w, 1, 0x1))
      && (Gets(feeds, w, 2) <==> PollGives(wants, anfds[polls[i].fd], revents[i], w, 2, 0x4))
  }

  lemma PollTells(wants: Wants, polls: seq<PollFd>, anfds: seq<Anfd>, revents: seq<Mask>)
    requires |polls| == |revents| && forall j, k :: 0 <= j < k < |polls| ==> polls[j].fd != polls[k].fd
    ensures PollTold(wants, polls, anfds, revents, AllFeeds(wants, polls, anfds, revents))
  {
    forall i: nat, w | w in wants && i < |polls| && OnlyAt(anfds, polls[i].fd, w)
      ensures var feeds := AllFeeds(wants, polls, anfds, revents);
        && (Gets(feeds, w, 1) <==> PollGives(wants, anfds[polls[i].fd], revents[i], w, 1, 0x1))
        && (Gets(feeds, w, 2) <==> PollGives(wants, anfds[polls[i].fd], revents[i], w, 2, 0x4))
    {
      PollTellsOne(wants, polls, anfds, revents, i, w);
    }
  }

  lemma PollTellsOne(wants: Wants, polls: seq<PollFd>, anfds: seq<Anfd>, revents: seq<Mask>, i: nat, w: Watcher)
    requires i < |polls| == |revents| && OnlyAt(anfds, polls[i].fd, w)
    requires forall j, k :: 0 <= j < k < |polls| ==> polls[j].fd != polls[k].fd
    ensures var feeds := AllFeeds(wants, polls, anfds, revents);
      && (Gets(feeds, w, 1) <==> PollGives(wants, anfds[polls[i].fd], revents[i], w, 1, 0x1))
      && (Gets(feeds, w, 2) <==> PollGives(wants, anfds[polls[i].fd], revents[i], w, 2, 0x4))
  {
    var anfd, result := anfds[polls[i].fd], FromResult(revents[i]);
    ResultBits(revents[i]);
    GetsPolled(wants, polls, anfds, revents, i, w, 1);
    GetsPolled(wants, polls, anfds, revents, i, w, 2);
    ToldPoll(wants, anfd, revents[i], result, w, 1, 0x1);
    ToldPoll(wants, anfd, revents[i], result, w, 2, 0x4);
  }

  // ---------- select ----------

  lemma {:induction false} GetsSelected(wants: Wants, anfds: seq<Anfd>, ro: seq<set<nat>>, wo: seq<set<nat>>, top: nat,
                                        k: nat, fd: nat, w: Watcher, b: Mask)
    requires OnlyAt(anfds, fd, w) && b in {1, 2}
    ensures Gets(SelectFeeds(wants, anfds, ro, wo, top, k), w, b) <==>
      k <= fd < top && SelectGives(wants, anfds[fd], SelectBits(ro, wo, fd), w, b)
    decreases top - k
  {
    if k < top {
      GetsSelected(wants, anfds, ro, wo, top, k + 1, fd, w, b);
      GetsSelectFeed(wants, anfds, SelectBits(ro, wo, k), SelectFeed(wants, anfds, ro, wo, k), k, fd, w, b);
      GetsConcat(SelectFeeds(wants, anfds, ro, wo, top, k + 1), SelectFeed(wants, anfds, ro, wo, k), w, b);
    }
  }

  ghost predicate SelectGives(wants: Wants, anfd: Anfd, bits: Mask, w: Watcher, b: Mask) {
    anfd.reify == 0 && w in wants && Has(wants[w] & bits, b)
  }

  lemma GetsSelectFeed(wants: Wants, anfds: seq<Anfd>, bits: Mask, feeds: seq<Happening>, x: nat, fd: nat, w: Watcher,
                       b: Mask)
    requires OnlyAt(anfds, fd, w) && b in {1, 2}
    requires feeds == if bits != 0 && x < |anfds| then FdFeeds(wants, anfds[x], bits) else []
    ensures Gets(feeds, w, b) <==> x == fd && SelectGives(wants, anfds[fd], bits, w, b)
  {
    if x < |anfds| {
      if bits == 0 {
        NothingWanted(wants, w, b);
      } else if anfds[x].reify == 0 {
        GetsFedTo(wants, anfds[x].head, bits, w, b);
      }
    }
  }

  /** Every started watcher gets EV_READ just when it wants it and the bit of its fd is set
    * in the read set, and EV_WRITE likewise, unless the fd is queued.
    */
  ghost predicate SelectTold(wants: Wants, anfds: seq<Anfd>, ro: seq<set<nat>>, wo: seq<set<nat>>,
                             feeds: seq<Happening>)
  {
    forall fd: nat, w :: w in wants && OnlyAt(anfds, fd, w) ==>
      && (Gets(feeds, w, 1) <==> BitGives(wants, anfds[fd], ro, fd, w, 1))
      && (Gets(feeds, w, 2) <==> BitGives(wants, anfds[fd], wo, fd, w, 2))
  }

  ghost predicate BitGives(wants: Wants, anfd: Anfd, words: seq<set<nat>>, fd: nat, w: Watcher, b: Mask) {
    && anfd.reify == 0 && w in wants && wants[w] & b != 0
    && fd / 64 < |words| && fd % 64 in words[fd / 64]
  }

  lemma SelectBitsAre(ro: seq<set<nat>>, wo: seq<set<nat>>, fd: nat)
    ensures SelectBits(ro, wo, fd) & 1 != 0 <==> fd / 64 < |ro| && fd % 64 in ro[fd / 64]
    ensures SelectBits(ro, wo, fd) & 2 != 0 <==> fd / 64 < |wo| && fd % 64 in wo[fd / 64]
  {
  }

  lemma GivesBit(wants: Wants, anfd: Anfd, bits: Mask, words: seq<set<nat>>, fd: nat, w: Watcher, b: Mask)
    requires b in {1, 2} && (bits & b != 0 <==> fd / 64 < |words| && fd % 64 in words[fd / 64])
    ensures SelectGives(wants, anfd, bits, w, b) <==> BitGives(wants, anfd, words, fd, w, b)
  {
    if w in wants {
      OneBit(wants[w], bits, b);
      HasUnfold(wants[w], b);
      HasUnfold(bits, b);
    }
  }

  lemma SelectTells(wants: Wants, anfds: seq<Anfd>, ro: seq<set<nat>>, wo: seq<set<nat>>)
    requires |ro| == |wo|
    ensures SelectTold(wants, anfds, ro, wo, SelectFeeds(wants, anfds, ro, wo, |ro| * NFDBITS, 0))
  {
    forall fd: nat, w | w in wants && OnlyAt(anfds, fd, w)
      ensures var feeds := SelectFeeds(wants, anfds, ro, wo, |ro| * NFDBITS, 0);
        && (Gets(feeds, w, 1) <==> BitGives(wants, anfds[fd], ro, fd, w, 1))
        && (Gets(feeds, w, 2) <==> BitGives(wants, anfds[fd], wo, fd, w, 2))
    {
      SelectTellsOne(wants, anfds, ro, wo, fd, w);
    }
  }

  lemma SelectTellsOne(wants: Wants, anfds: seq<Anfd>, ro: seq<set<nat>>, wo: seq<set<nat>>, fd: nat, w: Watcher)
    requires |ro| == |wo| && OnlyAt(anfds, fd, w)
    ensures var feeds := SelectFeeds(wants, anfds, ro, wo, |ro| * NFDBITS, 0);
      && (Gets(feeds, w, 1) <==> BitGives(wants, anfds[fd], ro, fd, w, 1))
      && (Gets(feeds, w, 2) <==> BitGives(wants, anfds[fd], wo, fd, w, 2))
  {
    var bits := SelectBits(ro, wo, fd);
    SelectBitsAre(ro, wo, fd);
    GetsSelected(wants, anfds, ro, wo, |ro| * NFDBITS, 0, fd, w, 1);
    GetsSelected(wants, anfds, ro, wo, |ro| * NFDBITS, 0, fd, w, 2);
    GivesBit(wants, anfds[fd], bits, ro, fd, w, 1);
    GivesBit(wants, anfds[fd], bits, wo, fd, w, 2);
  }
}
