/** The shared log history of bin/logger.js: a circular buffer of fixed
    capacity (the CBuffer library) and the process-wide `Stream` that pushes
    every record of every attached logger into it and then re-emits it. */
module History {
  import opened Common

  /** Capacity of the history before any configuration (bin/logger.js:12). */
  const LoggingBufferSize: nat := 25

  /** The last min(n, |s|) elements of s, in order. */
  function LastN<T>(s: seq<T>, n: nat): seq<T>
  {
    s[|s| - Min(n, |s|)..]
  }

  /** One push into a bounded FIFO: when the buffer is full the oldest entry
      is overwritten, otherwise the entry is appended. */
  function Pushed<T>(items: seq<T>, capacity: nat, x: T): (r: seq<T>)
    requires 1 <= capacity && |items| <= capacity
    ensures r == LastN(items + [x], capacity)
  {
    if |items| < capacity then items + [x] else items[1..] + [x]
  }

  /** Pushing the elements of xs one after the other, first to last. */
  function PushAll<T>(items: seq<T>, capacity: nat, xs: seq<T>): (r: seq<T>)
    requires 1 <= capacity && |items| <= capacity
    ensures |r| <= capacity
    decreases |xs|
  {
    if xs == [] then items
    else Pushed(PushAll(items, capacity, xs[..|xs| - 1]), capacity, xs[|xs| - 1])
  }

  /** Keeping the last n of s and then the last n of that plus one more is
      the same as keeping the last n of s plus that element. */
  lemma LastNSnoc<T>(s: seq<T>, n: nat, x: T)
    requires 1 <= n
    ensures LastN(LastN(s, n) + [x], n) == LastN(s + [x], n)
  {
    var t := LastN(s, n);
    assert t + [x] == (s + [x])[|s| - |t|..];
  }

  /** Whatever was pushed, the buffer holds the newest min(capacity, total)
      entries of its old contents followed by the pushed ones, in push order. */
  lemma {:induction false} PushAllKeepsNewest<T>(items: seq<T>, capacity: nat, xs: seq<T>)
    requires 1 <= capacity && |items| <= capacity
    ensures PushAll(items, capacity, xs) == LastN(items + xs, capacity)
    decreases |xs|
  {
    if xs == [] {
      assert items + xs == items;
    } else {
      var front, last := xs[..|xs| - 1], xs[|xs| - 1];
      PushAllKeepsNewest(items, capacity, front);
      LastNSnoc(items + front, capacity, last);
      assert items + front + [last] == items + xs;
    }
  }

  /** Pushes into an empty buffer: the size is min(capacity, pushes) and the
      contents are the most recent pushes in push order. */
  lemma {:induction false} BoundedHistory<T>(capacity: nat, xs: seq<T>)
    requires 1 <= capacity
    ensures |PushAll([], capacity, xs)| == Min(capacity, |xs|)
    ensures PushAll([], capacity, xs) == xs[|xs| - Min(capacity, |xs|)..]
  {
    PushAllKeepsNewest([], capacity, xs);
    assert [] + xs == xs;
    assert PushAll([], capacity, xs) == LastN(xs, capacity);
  }

  /** A record as the stream stores it (bin/logger.js:36-37): the transport it
      came through, its level, message, metadata and the time it was seen. */
  datatype Record = Record(transport: string, level: string, msg: string, meta: string, time: int)

  /** The CBuffer library: a bounded FIFO of fixed capacity. */
  class CBuffer<T> {
    const capacity: nat
    var items: seq<T>

    ghost predicate Valid()
      reads this
    {
      1 <= capacity && |items| <= capacity
    }

    constructor (size: nat)
      requires 1 <= size
      ensures Valid() && capacity == size && items == []
    {
      capacity := size;
      items := [];
    }

    method Push(x: T)
      requires Valid()
      modifies this
      ensures Valid() && items == Pushed(old(items), capacity, x)
    {
      items := Pushed(items, capacity, x);
    }

    /** Pushes the elements of xs one after the other, first to last. */
    method PushEach(xs: seq<T>)
      requires Valid()
      modifies this
      ensures Valid()
      ensures items == PushAll(old(items), capacity, xs)
    {
      ghost var start := items;
      var i := 0;
      while i < |xs|
        invariant 0 <= i <= |xs|
        invariant Valid()
        invariant items == PushAll(start, capacity, xs[..i])
      {
        assert xs[..i + 1][..i] == xs[..i];
        Push(xs[i]);
        i := i + 1;
      }
      assert xs[..i] == xs;
    }
  }

  /** The process-wide event stream of bin/logger.js:18-41. `emitted` is the
      sequence of `logging` events delivered to its subscribers, `sources`
      the labels of the loggers it listens to, in the order attached. */
  class Stream {
    var cbuffer: CBuffer<Record>
    var emitted: seq<Record>
    var sources: seq<string>

    ghost predicate Valid()
      reads this, cbuffer
    {
      cbuffer.Valid()
    }

    constructor ()
      ensures Valid() && fresh(cbuffer)
      ensures cbuffer.capacity == LoggingBufferSize && cbuffer.items == []
      ensures emitted == [] && sources == []
    {
      cbuffer := new CBuffer(LoggingBufferSize);
      emitted := [];
      sources := [];
    }

    /** Installs a buffer of the new capacity and re-pushes the old records
        oldest first, so the newest min(size, old size) records survive in
        their original order. This is the evidently intended behaviour; see
        SetBufferSizeAsWritten for the code as it stands. */
    method SetBufferSize(size: nat)
      requires Valid() && 1 <= size
      modifies this`cbuffer
      ensures Valid() && fresh(cbuffer)
      ensures cbuffer.capacity == size
      ensures cbuffer.items == LastN(old(cbuffer.items), size)
    {
      var old_items := cbuffer.items;
      var fresh_buffer := new CBuffer(size);
      fresh_buffer.PushEach(old_items);
      cbuffer := fresh_buffer;
      PushAllKeepsNewest([], size, old_items);
      assert [] + old_items == old_items;
    }

    /** setBufferSize as written: the new buffer is installed first, and the
        forEach callback then reads `this.cbuffer` with `this` undefined
        (strict mode), so the call throws as soon as the old buffer holds a
        record, leaving the new buffer empty. */
    method SetBufferSizeAsWritten(size: nat) returns (thrown: bool)
      requires Valid() && 1 <= size
      modifies this`cbuffer
      ensures Valid() && fresh(cbuffer)
      ensures cbuffer.capacity == size && cbuffer.items == []
      ensures thrown <==> old(cbuffer.items) != []
    {
      var previous := cbuffer;
      cbuffer := new CBuffer(size);
      thrown := previous.items != [];
    }

    /** The live history container, not a copy. */
    method History() returns (h: CBuffer<Record>)
      ensures h == cbuffer
    {
      h := cbuffer;
    }

    /** `source(logger)`: the stream starts listening to that logger. */
    method Source(name: string)
      modifies this`sources
      ensures sources == old(sources) + [name]
    {
      sources := sources + [name];
    }

    /** Broadcasts a record to the subscribers. Delivery requires that the
        record is already the newest entry of the history: the append happens
        before the broadcast. */
    method Emit(data: Record)
      requires Valid() && cbuffer.items != [] && cbuffer.items[|cbuffer.items| - 1] == data
      modifies this`emitted
      ensures emitted == old(emitted) + [data]
    {
      emitted := emitted + [data];
    }

    /** The `logging` listener that `source` installs: build the record with
        the current time, push it into the history, then emit that same
        record. */
    method OnLogging(transport: string, level: string, msg: string, meta: string, now: int)
      requires Valid()
      modifies this`emitted, cbuffer
      ensures Valid() && cbuffer == old(cbuffer) && cbuffer.capacity == old(cbuffer.capacity)
      ensures var data := Record(transport, level, msg, meta, now);
        cbuffer.items == Pushed(old(cbuffer.items), cbuffer.capacity, data) &&
        emitted == old(emitted) + [data]
    {
      var data := Record(transport, level, msg, meta, now);
      cbuffer.Push(data);
      Emit(data);
    }
  }

  /** The resize bug in action: one logged record, then a resize; the call
      throws and the history is left empty. */
  method AsWrittenResizeDropsHistory() returns (thrown: bool, kept: nat)
    ensures thrown && kept == 0
  {
    var s := new Stream();
    s.OnLogging("console", "info", "started", "", 0);
    thrown := s.SetBufferSizeAsWritten(10);
    kept := |s.cbuffer.items|;
  }

  /** The corrected resize on the same scenario keeps the record. */
  method CorrectedResizeKeepsHistory() returns (kept: nat)
    ensures kept == 1
  {
    var s := new Stream();
    s.OnLogging("console", "info", "started", "", 0);
    s.SetBufferSize(10);
    kept := |s.cbuffer.items|;
  }
}
