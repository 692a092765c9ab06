/** The interest sets of two libev backends: poll keeps a dense array with an
  * inverse index (ev_poll.c), select keeps words of bits (ev_select.c). Both
  * represent the mask each fd is watched with.
  */
module Backends {
  import opened Watchers

  const POLLIN: Mask := 1
  const POLLOUT: Mask := 4
  const POLLERR: Mask := 8
  const POLLHUP: Mask := 16
  const POLLNVAL: Mask := 32

  /** Bits in one word of a select set. */
  const NFDBITS: nat := 64

  predicate IoMask(events: Mask) {
    events & (EV_READ | EV_WRITE) == events
  }

  function ToPoll(events: Mask): Mask {
    (if events & EV_READ != 0 then POLLIN else 0) | (if events & EV_WRITE != 0 then POLLOUT else 0)
  }

  function FromPoll(events: Mask): Mask {
    (if events & POLLIN != 0 then EV_READ else 0) | (if events & POLLOUT != 0 then EV_WRITE else 0)
  }

  /** The events a result of poll stands for; errors and hang-ups are both. */
  function FromResult(revents: Mask): Mask {
    (if revents & (POLLOUT | POLLERR | POLLHUP) != 0 then EV_WRITE else 0)
    | (if revents & (POLLIN | POLLERR | POLLHUP) != 0 then EV_READ else 0)
  }

  lemma PollRoundTrip(events: Mask)
    requires IoMask(events)
    ensures FromPoll(ToPoll(events)) == events
  {
  }

  datatype PollFd = PollFd(fd: nat, events: Mask)

  class PollSet {
    var polls: seq<PollFd>
    /** Where the fd is in polls, or -1. */
    var pollidxs: seq<int>

    ghost predicate Listed(fd: nat)
      reads this
    {
      fd < |pollidxs| && pollidxs[fd] >= 0
    }

    /** polls and pollidxs are inverse to each other. */
    ghost predicate Valid()
      reads this
    {
      && (forall fd: nat :: Listed(fd) ==> pollidxs[fd] < |polls| && polls[pollidxs[fd]].fd == fd)
      && (forall i :: 0 <= i < |polls| ==>
            polls[i].fd < |pollidxs| && pollidxs[polls[i].fd] == i && FromPoll(polls[i].events) != 0)
    }

    ghost function Interest(fd: nat): Mask
      requires Valid()
      reads this
    {
      if Listed(fd) then FromPoll(polls[pollidxs[fd]].events) else 0
    }

    constructor ()
      ensures Valid() && polls == [] && forall fd: nat :: Interest(fd) == 0
    {
      polls, pollidxs := [], [];
    }

    method Reserve(fd: nat)
      requires Valid()
      modifies this`pollidxs
      ensures Valid() && fd < |pollidxs|
      ensures forall x: nat :: Interest(x) == old(Interest(x)) && Listed(x) == old(Listed(x))
    {
      if fd >= |pollidxs| {
        pollidxs := pollidxs + seq(fd + 1 - |pollidxs|, _ => -1);
      }
    }

    /** poll_modify. */
    method Modify(fd: nat, oev: Mask, nev: Mask)
      requires Valid() && oev == Interest(fd) && IoMask(nev)
      modifies this
      ensures Valid() && Interest(fd) == nev && forall x: nat :: x != fd ==> Interest(x) == old(Interest(x))
    {
      if oev == nev {
        return;
      }
      Reserve(fd);
      if nev != 0 {
        PollRoundTrip(nev);
        Put(fd, ToPoll(nev));
      } else {
        Remove(fd);
      }
    }

    /** Sets the events of fd, in a new entry if it has none. */
    method Put(fd: nat, events: Mask)
      requires Valid() && fd < |pollidxs| && FromPoll(events) != 0
      modifies this
      ensures Valid() && Interest(fd) == FromPoll(events)
      ensures forall x: nat :: x != fd ==> Interest(x) == old(Interest(x))
    {
      var idx := pollidxs[fd];
      if idx < 0 {
        idx := |polls|;
        pollidxs := pollidxs[fd := idx];
        polls := polls + [PollFd(fd, 0)];
      }
      polls := polls[idx := PollFd(fd, events)];
    }

    /** Takes the entry of fd out; the last one moves into its place. */
    method Remove(fd: nat)
      requires Valid() && Listed(fd)
      modifies this
      ensures Valid() && Interest(fd) == 0 && forall x: nat :: x != fd ==> Interest(x) == old(Interest(x))
    {
      var idx := pollidxs[fd];
      pollidxs := pollidxs[fd := -1];
      var pollcnt := |polls| - 1;
      if idx < pollcnt {
        var last := polls[pollcnt];
        polls := polls[idx := last];
        pollidxs := pollidxs[last.fd := idx];
      }
      polls := polls[..pollcnt];
    }
  }

  ghost predicate HasBit(words: seq<set<nat>>, fd: nat) {
    fd / NFDBITS < |words| && fd % NFDBITS in words[fd / NFDBITS]
  }

  /** The events that the bits of fd in a read and a write set stand for. */
  ghost function SelectBits(r: seq<set<nat>>, w: seq<set<nat>>, fd: nat): Mask {
    (if HasBit(r, fd) then EV_READ else 0) | (if HasBit(w, fd) then EV_WRITE else 0)
  }

  class SelectSet {
    /** The bits set in each word of vec_ri and vec_wi. */
    var ri: seq<set<nat>>
    var wi: seq<set<nat>>

    ghost predicate Valid()
      reads this
    {
      |ri| == |wi| && (forall k :: 0 <= k < |ri| ==> InWord(ri[k])) && (forall k :: 0 <= k < |wi| ==> InWord(wi[k]))
    }

    static ghost predicate InWord(bits: set<nat>) {
      forall b :: b in bits ==> b < NFDBITS
    }

    ghost function Interest(fd: nat): Mask
      reads this
    {
      SelectBits(ri, wi, fd)
    }

    constructor ()
      ensures Valid() && forall fd: nat :: Interest(fd) == 0
    {
      ri, wi := [], [];
    }

    method Grow(word: nat)
      requires Valid()
      modifies this
      ensures Valid() && word < |ri| && forall x: nat :: Interest(x) == old(Interest(x))
    {
      if |ri| <= word {
        var zeros: seq<set<nat>> := seq(word + 1 - |ri|, _ => {});
        assert forall k :: 0 <= k < |zeros| ==> zeros[k] == {};
        ri, wi := ri + zeros, wi + zeros;
      }
    }

    lemma IoBits(events: Mask)
      requires IoMask(events)
      ensures (if events & EV_READ != 0 then EV_READ else 0) |
              (if events & EV_WRITE != 0 then EV_WRITE else 0) == events
    {
    }

    lemma BitsApart(fd: nat, x: nat)
      requires fd / NFDBITS == x / NFDBITS && fd % NFDBITS == x % NFDBITS
      ensures fd == x
    {
    }

    /** select_modify: the bit is set first and cleared again if it is not wanted. */
    method Modify(fd: nat, oev: Mask, nev: Mask)
      requires Valid() && oev == Interest(fd) && IoMask(nev)
      modifies this
      ensures Valid() && Interest(fd) == nev && forall x: nat :: x != fd ==> Interest(x) == old(Interest(x))
    {
      if oev == nev {
        return;
      }
      var word, mask := fd / NFDBITS, fd % NFDBITS;
      Grow(word);
      label Grown:
      IoBits(nev);
      ri := ri[word := ri[word] + {mask}];
      if nev & EV_READ == 0 {
        ri := ri[word := ri[word] - {mask}];
      }
      wi := wi[word := wi[word] + {mask}];
      if nev & EV_WRITE == 0 {
        wi := wi[word := wi[word] - {mask}];
      }
      forall x: nat | x != fd ensures Interest(x) == old@Grown(Interest(x)) {
        if x / NFDBITS == word && x % NFDBITS == mask {
          BitsApart(fd, x);
        }
      }
    }
  }
}
