/** The two byte readers below the parser: one stops a stream that is too long, one remembers the last byte. */
module Readers {
  import opened Common

  /** What one call of the underlying reader does: how many bytes it is ready to give, and an error that may come with
      them. A reader never gives more than it is asked for. */
  datatype Offer = Offer(count: nat, failure: Option<string>)

  datatype Outcome = NoError | ReaderFailed(failure: string) | LimitExceeded

  /** The underlying stream. */
  class Source {
    const bytes: string
    var position: nat

    constructor (bytes: string)
      ensures this.bytes == bytes && position == 0
    {
      this.bytes := bytes;
      position := 0;
    }

    predicate Valid()
      reads this
    {
      position <= |bytes|
    }

    /** Gives at most `size` bytes, possibly fewer, possibly none. */
    method Read(size: nat, offer: Offer) returns (chunk: string, failure: Option<string>)
      requires Valid()
      modifies this
      ensures Valid() && failure == offer.failure
      ensures old(position) <= position <= old(position) + size
      ensures position == old(position) + Least(offer.count, Least(size, |bytes| - old(position)))
      ensures chunk == bytes[old(position)..position]
    {
      var n := Least(offer.count, Least(size, |bytes| - position));
      chunk := bytes[position..position + n];
      position := position + n;
      failure := offer.failure;
    }
  }

  function Least(a: nat, b: nat): nat {
    if a <= b then a else b
  }

  // ---------- The counting reader ----------

  class CountingReader {
    const source: Source
    const max: nat
    var n: nat
    /** Everything handed to callers so far. */
    ghost var delivered: string

    constructor (source: Source, max: nat)
      requires source.Valid() && source.position == 0
      ensures this.source == source && this.max == max && Valid() && n == 0
    {
      this.source, this.max := source, max;
      n := 0;
      delivered := "";
    }

    /** What was delivered is the consumed part of the stream, and never more than one byte over the limit. */
    ghost predicate Valid()
      reads this, source
    {
      source.Valid() && n == source.position && delivered == source.bytes[..n] && n <= max + 1
    }

    method Read(size: nat, offer: Offer) returns (chunk: string, outcome: Outcome)
      requires Valid()
      modifies this, source
      ensures Valid() && delivered == old(delivered) + chunk && |chunk| <= size
      ensures old(n) > max ==> chunk == "" && outcome == LimitExceeded
      ensures outcome == LimitExceeded <==> n > max
      ensures n <= max ==> outcome == if offer.failure.Some? then ReaderFailed(offer.failure.value) else NoError
      ensures n == old(n) + Least(offer.count, Least(Least(size, max + 1 - old(n)), |source.bytes| - old(n)))
    {
      var remaining := max + 1 - n;
      if remaining <= 0 {
        return "", LimitExceeded;
      }
      var asked := size;
      if asked > remaining {
        asked := remaining;
      }
      var failure: Option<string>;
      chunk, failure := source.Read(asked, offer);
      n := n + |chunk|;
      delivered := delivered + chunk;
      if n > max {
        return chunk, LimitExceeded;
      }
      outcome := if failure.Some? then ReaderFailed(failure.value) else NoError;
    }
  }

  // ---------- The final-byte reader ----------

  class FinalByteReader {
    const source: CountingReader
    var readAny: bool
    var last: char
    ghost const start: nat

    constructor (source: CountingReader)
      requires source.Valid()
      ensures this.source == source && Valid() && start == source.n && !readAny
    {
      this.source := source;
      readAny, last := false, '\0';
      start := source.n;
    }

    /** The remembered byte is the last one delivered through this reader. */
    ghost predicate Valid()
      reads this, source, source.source
    {
      && source.Valid() && start <= source.n
      && (readAny <==> source.n > start)
      && (readAny ==> last == source.source.bytes[source.n - 1])
    }

    method Read(size: nat, offer: Offer) returns (chunk: string, outcome: Outcome)
      requires Valid()
      modifies this, source, source.source
      ensures Valid() && source.delivered == old(source.delivered) + chunk
      ensures outcome == LimitExceeded <==> source.n > source.max
      ensures source.n <= source.max ==> outcome == if offer.failure.Some? then ReaderFailed(offer.failure.value)
          else NoError
      ensures source.n == old(source.n)
                          + Least(offer.count,
                                  Least(Least(size, source.max + 1 - old(source.n)),
                                        |source.source.bytes| - old(source.n)))
    {
      chunk, outcome := source.Read(size, offer);
      if |chunk| > 0 {
        readAny := true;
        last := chunk[|chunk| - 1];
      }
    }
  }

  // ---------- Whole runs of reads ----------

  datatype Request = Request(size: nat, offer: Offer)

  /** Bytes consumed after the requests, as each read caps itself. */
  function Consumed(requests: seq<Request>, length: nat, max: nat): (n: nat)
    ensures n <= length && n <= max + 1
  {
    if requests == [] then 0
    else
      var before, r := Consumed(Init(requests), length, max), Last(requests);
      before + Least(r.offer.count, Least(Least(r.size, max + 1 - before), length - before))
  }

  /** Bytes the stream itself would have given to the same requests without any limit. */
  function Unlimited(requests: seq<Request>, length: nat): (n: nat)
    ensures n <= length
  {
    if requests == [] then 0
    else
      var before, r := Unlimited(Init(requests), length), Last(requests);
      before + Least(r.offer.count, Least(r.size, length - before))
  }

  /** The limit cuts the stream, and does nothing else: up to the limit the reads are those of the bare stream. */
  lemma {:induction false} LimitOnlyCuts(requests: seq<Request>, length: nat, max: nat)
    ensures Consumed(requests, length, max) == Least(Unlimited(requests, length), max + 1)
  {
    if requests != [] {
      LimitOnlyCuts(Init(requests), length, max);
    }
  }

  lemma {:induction false} NothingConsumed(length: nat, max: nat)
    ensures Consumed([], length, max) == 0
  {
  }

  lemma {:induction false} ConsumedNext(requests: seq<Request>, i: nat, length: nat, max: nat)
    requires i < |requests|
    ensures
      var before, r := Consumed(requests[..i], length, max), requests[i];
      Consumed(requests[..i + 1], length, max) ==
      before + Least(r.offer.count, Least(Least(r.size, max + 1 - before), length - before))
  {
    InitOfPrefix(requests, i);
  }

  /** Any sequence of reads: what arrives is a prefix of the stream of at most max + 1 bytes, the limit is reported
      exactly if the bare stream would have given more than max bytes, and the last byte is the one remembered. */
  method ReadAll(bytes: string, max: nat, requests: seq<Request>)
    returns (received: string, exceeded: bool, last: Option<char>)
    ensures |received| <= max + 1 && received <= bytes
    ensures received == bytes[..Least(Unlimited(requests, |bytes|), max + 1)]
    ensures exceeded <==> Unlimited(requests, |bytes|) > max
    ensures last == if received == "" then None else Some(Last(received))
  {
    hide Consumed, Unlimited;
    NothingConsumed(|bytes|, max);
    var source := new Source(bytes);
    var counting := new CountingReader(source, max);
    var tracked := new FinalByteReader(counting);
    received := "";
    exceeded := false;
    var i := 0;
    while i < |requests|
      invariant 0 <= i <= |requests|
      invariant tracked.Valid() && tracked.source == counting && counting.source == source && counting.max == max
      invariant source.bytes == bytes && tracked.start == 0 && fresh({source, counting, tracked})
      invariant received == counting.delivered && counting.n == Consumed(requests[..i], |bytes|, max)
      invariant exceeded <==> counting.n > max
    {
      ConsumedNext(requests, i, |bytes|, max);
      var chunk, outcome := tracked.Read(requests[i].size, requests[i].offer);
      received := received + chunk;
      exceeded := outcome == LimitExceeded;
      i := i + 1;
    }
    WholePrefix(requests);
    LimitOnlyCuts(requests, |bytes|, max);
    last := if tracked.readAny then Some(tracked.last) else None;
  }
}
