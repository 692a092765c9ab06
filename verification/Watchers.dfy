/** The fields all libev watchers share, and those of timers and I/O (ev.h). */
module Watchers {
  /** A set of event bits. */
  type Mask = bv32

  const EV_TIMER: Mask := 0x100
  const EV_READ: Mask := 1
  const EV_WRITE: Mask := 2
  const EV_IOFDSET: Mask := 0x80

  const MINPRI: int := -2
  const MAXPRI: int := 2
  const NUMPRI: nat := 5

  class Watcher {
    /** The heap index of an active timer; 1 for an active I/O watcher. */
    var active: nat
    /** One more than the position in the pending queue, or 0. */
    var pending: nat
    var priority: int
    /** When a timer expires, or, while it is stopped, how long it has left. */
    var at: int
    var repeat: int
    /** What an I/O watcher watches for, and on which file descriptor. */
    var fd: nat
    var events: Mask

    constructor (priority: int, at: int, repeat: int)
      ensures active == 0 && pending == 0 && this.priority == priority && this.at == at && this.repeat == repeat
      ensures fd == 0 && events == 0
    {
      fd, events := 0, 0;
      active, pending, this.priority, this.at, this.repeat := 0, 0, priority, at, repeat;
    }
  }

  function ClampPri(pri: int): int {
    if pri < MINPRI then MINPRI else if pri > MAXPRI then MAXPRI else pri
  }

  /** Of the priorities from -2 to 2, the one nearest to the one asked for. */
  lemma ClampNearest(pri: int, other: int)
    requires -2 <= other <= 2
    ensures -2 <= ClampPri(pri) <= 2 && Apart(pri, ClampPri(pri)) <= Apart(pri, other)
  {
  }

  function Apart(a: int, b: int): int {
    if a < b then b - a else a - b
  }

  /** Mentioned where a folded definition is to be used. */
  ghost predicate Unfold(k: nat) { true }
}
