/** The buffer pool: one arbiter task owns a list of idle receive buffers and,
    on every turn of its loop, first makes sure the list is not empty and then
    serves exactly one of three events: a buffer released by a client, a buffer
    handed to a client, or the idle-expiration tick.  Times are nanosecond
    clock readings. */
module BufferPool {
  import opened Bytes

  /** A receive buffer: a Go byte slice, handed around by reference. */
  type Buf = array<byte>

  /** `queuedBuffer`: an idle buffer and the time it entered the list. */
  datatype QueuedBuffer = QueuedBuffer(buf: Buf, queuedAt: nat)

  const Second: nat := 1_000_000_000

  /** The expiration time `newBufPool` gives the arbiter. */
  const ExpirationTime: nat := 30 * Second

  /** `time.Since(queuedAt) > expirationTime`, read at clock value `now`. */
  predicate Expired(q: QueuedBuffer, now: nat, expiration: nat)
  {
    now - q.queuedAt > expiration
  }

  /** Every entry was queued no earlier than the entries behind it. */
  ghost predicate NewestFirst(free: seq<QueuedBuffer>)
  {
    forall i, j :: 0 <= i < j < |free| ==> free[i].queuedAt >= free[j].queuedAt
  }

  ghost predicate NonDecreasing(clock: seq<nat>)
  {
    forall i, j :: 0 <= i <= j < |clock| ==> clock[i] <= clock[j]
  }

  /** The free list left by the expiry sweep when its successive iterations
      read the clock values `clock`: each iteration looks at the current front
      only and removes it when it has expired; the sweep stops when the list is
      empty.  If the readings run out first, the sweep is still spinning on the
      list returned. */
  function Sweep(free: seq<QueuedBuffer>, clock: seq<nat>, expiration: nat): (rest: seq<QueuedBuffer>)
    ensures |rest| <= |free| && rest == free[|free| - |rest|..]
    decreases |clock|
  {
    if free == [] || clock == [] then free
    else if Expired(free[0], clock[0], expiration) then Sweep(free[1..], clock[1..], expiration)
    else Sweep(free, clock[1..], expiration)
  }

  /** The sweep ends on an empty list or when the readings run out. */
  lemma SweepDone(free: seq<QueuedBuffer>, clock: seq<nat>, expiration: nat)
    requires free == [] || clock == []
    ensures Sweep(free, clock, expiration) == free
  {
  }

  /** The iteration that reads `clock[i]`: it removes the front only when
      the front has expired at that reading. */
  lemma SweepAdvance(free: seq<QueuedBuffer>, clock: seq<nat>, i: nat, expiration: nat)
    requires free != [] && i < |clock|
    ensures Sweep(free, clock[i..], expiration) ==
              Sweep(if Expired(free[0], clock[i], expiration) then free[1..] else free, clock[i + 1..], expiration)
  {
    assert clock[i..][1..] == clock[i + 1..];
  }

  /** A newest-first list whose stamps are all at most `t`: the state the
      arbiter keeps. */
  ghost predicate Ordered(free: seq<QueuedBuffer>, t: nat)
  {
    && NewestFirst(free)
    && forall i :: 0 <= i < |free| ==> free[i].queuedAt <= t
  }

  /** Removing the front keeps the order. */
  lemma OrderedTail(free: seq<QueuedBuffer>, t: nat)
    requires Ordered(free, t) && free != []
    ensures Ordered(free[1..], t)
  {
  }

  /** A front that has not expired at any reading is never removed, and
      nothing behind it is looked at: the sweep makes no progress at all. */
  lemma {:induction false} SweepStallsOnUnexpiredFront(free: seq<QueuedBuffer>, clock: seq<nat>, expiration: nat)
    requires free != []
    requires forall i :: 0 <= i < |clock| ==> !Expired(free[0], clock[i], expiration)
    ensures Sweep(free, clock, expiration) == free
    decreases |clock|
  {
    if clock != [] {
      SweepStallsOnUnexpiredFront(free, clock[1..], expiration);
    }
  }

  /** On a newest-first list, once the front has expired every entry behind
      it has too: given one reading per entry from a clock that does not run
      backwards, the sweep empties the list. */
  lemma {:induction false} SweepClearsNewestFirst(free: seq<QueuedBuffer>, clock: seq<nat>, expiration: nat)
    requires NewestFirst(free) && NonDecreasing(clock) && |clock| >= |free|
    requires free != [] ==> Expired(free[0], clock[0], expiration)
    ensures Sweep(free, clock, expiration) == []
    decreases |free|
  {
    if free != [] {
      if |free| > 1 {
        assert free[1].queuedAt <= free[0].queuedAt && clock[0] <= clock[1];
      }
      SweepClearsNewestFirst(free[1..], clock[1..], expiration);
    }
  }

  /** Every buffer the sweep removed had expired by the last clock reading. */
  lemma {:induction false} SweepRemovesOnlyExpired(free: seq<QueuedBuffer>, clock: seq<nat>, expiration: nat)
    requires NonDecreasing(clock) && clock != []
    ensures forall i :: 0 <= i < |free| - |Sweep(free, clock, expiration)| ==>
              Expired(free[i], clock[|clock| - 1], expiration)
    decreases |clock|
  {
    if free != [] && |clock| > 1 {
      var last := clock[|clock| - 1];
      assert clock[1..][|clock| - 2] == last;
      if Expired(free[0], clock[0], expiration) {
        SweepRemovesOnlyExpired(free[1..], clock[1..], expiration);
        assert clock[0] <= last;
        forall i | 0 <= i < |free| - |Sweep(free, clock, expiration)|
          ensures Expired(free[i], last, expiration)
        {
          if i > 0 {
            assert free[i] == free[1..][i - 1];
          }
        }
      } else {
        SweepRemovesOnlyExpired(free, clock[1..], expiration);
      }
    }
  }

  /** With the clock standing still, a sweep of a newest-first list removes
      everything or nothing: everything when the front has expired, and
      otherwise it spins without removing anything. */
  lemma SweepAllOrNothing(free: seq<QueuedBuffer>, now: nat, n: nat, expiration: nat)
    requires NewestFirst(free) && free != [] && n >= |free|
    ensures var clock := seq(n, _ => now);
            Sweep(free, clock, expiration) == if Expired(free[0], now, expiration) then [] else free
  {
    var clock := seq(n, _ => now);
    if Expired(free[0], now, expiration) {
      SweepClearsNewestFirst(free, clock, expiration);
    } else {
      SweepStallsOnUnexpiredFront(free, clock, expiration);
    }
  }

  /** The state of `manageBufferPool`: its free list.  The loop body is split
      into the top-up that starts every turn and the three `select` cases. */
  class Arbiter {
    const bufSize: nat
    const expiration: nat
    var freeBuffers: seq<QueuedBuffer>
    /** The latest clock reading taken; Go's monotonic clock never goes back. */
    ghost var lastNow: nat

    ghost predicate Valid()
      reads this
    {
      Ordered(freeBuffers, lastNow)
    }

    constructor (bufSize: nat, expiration: nat)
      ensures Valid()
      ensures this.bufSize == bufSize && this.expiration == expiration
      ensures freeBuffers == []
    {
      this.bufSize := bufSize;
      this.expiration := expiration;
      freeBuffers := [];
      lastNow := 0;
    }

    /** Start of a turn: an empty list gets one fresh zeroed buffer of
        `bufSize` bytes stamped `now`; a non-empty list is left alone. */
    method TopUp(now: nat)
      requires Valid() && lastNow <= now
      modifies this`freeBuffers, this`lastNow
      ensures Valid() && lastNow == now && freeBuffers != []
      ensures old(freeBuffers) != [] ==> freeBuffers == old(freeBuffers)
      ensures old(freeBuffers) == [] ==>
                && |freeBuffers| == 1 && freeBuffers[0].queuedAt == now
                && fresh(freeBuffers[0].buf) && freeBuffers[0].buf.Length == bufSize
                && forall i :: 0 <= i < bufSize ==> freeBuffers[0].buf[i] == 0
    {
      lastNow := now;
      if freeBuffers == [] {
        var b := new byte[bufSize](_ => 0);
        freeBuffers := [QueuedBuffer(b, now)];
      }
    }

    /** The give case: the front buffer goes to the getter and only that
        entry leaves the list. */
    method GiveFront() returns (b: Buf)
      requires Valid() && freeBuffers != []
      modifies this`freeBuffers
      ensures Valid()
      ensures b == old(freeBuffers)[0].buf && freeBuffers == old(freeBuffers)[1..]
    {
      b := freeBuffers[0].buf;
      freeBuffers := freeBuffers[1..];
    }

    /** The release case: the returned buffer, whatever its length, goes to
        the front stamped `now`. */
    method PushReleased(b: Buf, now: nat)
      requires Valid() && lastNow <= now
      modifies this`freeBuffers, this`lastNow
      ensures Valid() && lastNow == now
      ensures freeBuffers == [QueuedBuffer(b, now)] + old(freeBuffers)
    {
      lastNow := now;
      freeBuffers := [QueuedBuffer(b, now)] + freeBuffers;
    }

    /** One iteration of the sweep loop, reading the clock value `now`: the
        front is removed when it has expired, and nothing else changes. */
    method SweepFront(now: nat)
      requires Valid() && freeBuffers != []
      modifies this`freeBuffers
      ensures Valid()
      ensures freeBuffers ==
                if Expired(old(freeBuffers)[0], now, expiration) then old(freeBuffers)[1..] else old(freeBuffers)
    {
      if Expired(freeBuffers[0], now, expiration) {
        OrderedTail(freeBuffers, lastNow);
        freeBuffers := freeBuffers[1..];
      }
    }

    /** The expiration case: the sweep loop, iteration `i` reading the clock
        value `clock[i]`.  It ends only once the list is empty; `finished` is
        false when the readings ran out while it was still spinning. */
    method SweepExpired(clock: seq<nat>) returns (finished: bool)
      requires Valid()
      modifies this`freeBuffers
      ensures Valid()
      ensures freeBuffers == Sweep(old(freeBuffers), clock, expiration)
      ensures finished <==> freeBuffers == []
    {
      ghost var target := Sweep(freeBuffers, clock, expiration);
      var i := 0;
      while freeBuffers != [] && i < |clock|
        invariant i <= |clock|
        invariant Valid()
        invariant Sweep(freeBuffers, clock[i..], expiration) == target
        decreases |clock| - i
      {
        SweepAdvance(freeBuffers, clock, i, expiration);
        SweepFront(clock[i]);
        i := i + 1;
      }
      SweepDone(freeBuffers, clock[i..], expiration);
      finished := freeBuffers == [];
    }

    /** `Get`: one turn of the loop in which a getter is served at `now`. */
    method Get(now: nat) returns (b: Buf)
      requires Valid() && lastNow <= now
      modifies this`freeBuffers, this`lastNow
      ensures Valid() && lastNow == now
      ensures old(freeBuffers) != [] ==> b == old(freeBuffers)[0].buf && freeBuffers == old(freeBuffers)[1..]
      ensures old(freeBuffers) == [] ==>
                && fresh(b) && b.Length == bufSize && (forall i :: 0 <= i < bufSize ==> b[i] == 0)
                && freeBuffers == []
    {
      TopUp(now);
      b := GiveFront();
    }

    /** `Release`: one turn of the loop in which `b` is returned.  The turn
        reads the clock twice: at `startedAt` for the top-up and at `now`, when
        the release arrives.  The list grows by one, or by two when it was
        empty at the top-up. */
    method Release(b: Buf, startedAt: nat, now: nat)
      requires Valid() && lastNow <= startedAt <= now
      modifies this`freeBuffers, this`lastNow
      ensures Valid() && lastNow == now
      ensures old(freeBuffers) != [] ==> freeBuffers == [QueuedBuffer(b, now)] + old(freeBuffers)
      ensures old(freeBuffers) == [] ==>
                && |freeBuffers| == 2 && freeBuffers[0] == QueuedBuffer(b, now)
                && freeBuffers[1].queuedAt == startedAt && fresh(freeBuffers[1].buf)
                && freeBuffers[1].buf.Length == bufSize
                && forall i :: 0 <= i < bufSize ==> freeBuffers[1].buf[i] == 0
    {
      TopUp(startedAt);
      PushReleased(b, now);
    }

    /** One turn of the loop in which the expiration timer fires; the top-up
        reads the clock at `now` and the sweep reads `clock` afterwards.  An
        empty list is swept with the one fresh buffer the top-up put in. */
    method Tick(now: nat, clock: seq<nat>) returns (finished: bool)
      requires Valid() && lastNow <= now
      modifies this`freeBuffers, this`lastNow
      ensures Valid() && lastNow == now
      ensures old(freeBuffers) != [] ==> freeBuffers == Sweep(old(freeBuffers), clock, expiration)
      ensures old(freeBuffers) == [] ==>
                exists q: QueuedBuffer ::
                  && q.queuedAt == now && fresh(q.buf) && q.buf.Length == bufSize
                  && freeBuffers == Sweep([q], clock, expiration)
      ensures finished <==> freeBuffers == []
    {
      TopUp(now);
      ghost var q := freeBuffers[0];
      assert old(freeBuffers) == [] ==> freeBuffers == [q];
      finished := SweepExpired(clock);
      assert old(freeBuffers) == [] ==> freeBuffers == Sweep([q], clock, expiration);
    }

    /** A release followed directly by a get hands back the released buffer,
        and a non-empty list is as it was before: reuse is last-in,
        first-out. */
    method ReleaseThenGet(b: Buf, startedAt: nat, now: nat, later: nat) returns (got: Buf)
      requires Valid() && lastNow <= startedAt <= now <= later
      modifies this`freeBuffers, this`lastNow
      ensures Valid()
      ensures got == b
      ensures old(freeBuffers) != [] ==> freeBuffers == old(freeBuffers)
    {
      Release(b, startedAt, now);
      got := Get(later);
    }
  }
}
