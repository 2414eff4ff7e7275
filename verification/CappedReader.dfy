// The byte cap on streamed upstream bodies, against an adversarial source.
//
// A source holds the bytes it will deliver before it ends, by end of file or by an error. On each
// read the adversary chooses how many bytes to give, possibly none, and, once nothing is left,
// whether to report the end with this read or with a later one.
module CappedReader {
  import opened Wrappers

  type Bytes = seq<bv8>

  datatype Error = Eof | Broken | TooLarge

  datatype Choice = Choice(give: nat, tell: bool)

  datatype Source = Source(left: Bytes, end: Error) {
    // The number of bytes a read into a buffer of size k delivers.
    function Given(k: nat, c: Choice): (n: nat)
      ensures n <= k && n <= |left|
    {
      var n := if c.give <= k then c.give else k;
      if n <= |left| then n else |left|
    }

    function Read(k: nat, c: Choice): (Source, Bytes, Option<Error>) {
      var n := Given(k, c);
      (this.(left := left[n..]), left[..n], if n == |left| && c.tell then Some(end) else None)
    }
  }

  datatype Capped = Capped(source: Source, max: int, read: int, tripped: bool)

  // One Read call of the consumer: its buffer size, and the source's choices for the read and for
  // the one-byte probe at the cap.
  datatype Round = Round(k: nat, choice: Choice, probe: Choice)

  function CappedRead(c: Capped, r: Round): (Capped, Bytes, Option<Error>) {
    if c.tripped then (c, [], Some(TooLarge))
    else if c.max > 0 && c.max - c.read <= 0 then (c.(tripped := true), [], Some(TooLarge))
    else
      var k := if c.max > 0 && r.k > c.max - c.read then c.max - c.read else r.k;
      var (source, bytes, err) := c.source.Read(k, r.choice);
      var read := c.read + |bytes|;
      if c.max > 0 && read >= c.max then
        var (source', extra, _) := source.Read(1, r.probe);
        if extra != [] then (Capped(source', c.max, read, true), bytes, Some(TooLarge))
        else (Capped(source', c.max, read, false), bytes, err)
      else
        (Capped(source, c.max, read, false), bytes, err)
  }

  // Reads until an error: the bytes received and the error, if the rounds sufficed to reach one.
  function Drain(c: Capped, rounds: seq<Round>): (Bytes, Option<Error>)
    decreases |rounds|
  {
    if rounds == [] then ([], None)
    else
      var (c', bytes, err) := CappedRead(c, rounds[0]);
      if err.Some? then (bytes, err)
      else
        var (more, last) := Drain(c', rounds[1..]);
        (bytes + more, last)
  }

  // The source reports its end together with its last byte.
  predicate EndsWithLastByte(c: Capped, rounds: seq<Round>)
    decreases |rounds|
  {
    if rounds == [] || c.source.left == [] then false
    else
      var (c', bytes, err) := CappedRead(c, rounds[0]);
      if bytes == c.source.left then rounds[0].choice.tell
      else EndsWithLastByte(c', rounds[1..])
  }

  function New(data: Bytes, end: Error, max: int): Capped {
    Capped(Source(data, end), max, 0, false)
  }

  // A reader that has not reported anything yet and is still below or at the cap.
  ghost predicate Running(c: Capped) {
    !c.tripped && 0 <= c.read && (c.max > 0 ==> c.read <= c.max) && c.source.end != TooLarge
  }

  // What a drain of `c` that ended can have been.
  ghost predicate Outcome(c: Capped, joined: bool, bytes: Bytes, err: Error) {
    var total := c.read + |c.source.left|;
    && bytes <= c.source.left
    && (if c.max <= 0 || total < c.max then err == c.source.end && bytes == c.source.left
        else if total > c.max then err == TooLarge && c.read + |bytes| == c.max
        else bytes == c.source.left && err == if joined then c.source.end else TooLarge)
  }

  lemma {:induction false} DrainOutcome(c: Capped, rounds: seq<Round>)
    requires Running(c)
    ensures var (bytes, err) := Drain(c, rounds);
      && bytes <= c.source.left
      && (c.max > 0 ==> c.read + |bytes| <= c.max)
      && (err.Some? ==> Outcome(c, EndsWithLastByte(c, rounds), bytes, err.value))
    decreases |rounds|
  {
    if rounds != [] {
      var (c', bytes, err) := CappedRead(c, rounds[0]);
      if err.None? {
        assert c.source.left == bytes + c.source.left[|bytes|..];
        DrainOutcome(c', rounds[1..]);
        var (more, last) := Drain(c', rounds[1..]);
        assert bytes + more <= c.source.left;
      }
    }
  }

  // Draining a capped body, for every positive cap, source, pattern of short reads and buffer
  // sizes: at most max bytes arrive, all of them from the front of the source. A source shorter
  // than the cap arrives whole and ends as the source does; a longer one gives exactly max bytes
  // and ErrUpstreamTooLarge; one of exactly max bytes is accepted if and only if its end comes
  // together with its last byte.
  lemma CapIsEnforced(data: Bytes, end: Error, max: int, rounds: seq<Round>)
    requires max > 0 && end != TooLarge
    ensures var (bytes, err) := Drain(New(data, end, max), rounds);
      && bytes <= data && |bytes| <= max
      && (err.Some? && |data| < max ==> bytes == data && err.value == end)
      && (err.Some? && |data| > max ==> bytes == data[..max] && err.value == TooLarge)
      && (err.Some? && |data| == max ==>
            bytes == data && err.value == if EndsWithLastByte(New(data, end, max), rounds) then end else TooLarge)
  {
    DrainOutcome(New(data, end, max), rounds);
  }

  // Once a read has reported ErrUpstreamTooLarge, every later one does so again, delivers nothing and
  // takes nothing from the source.
  lemma TooLargeIsSticky(c: Capped, r: Round, again: Round)
    requires Running(c) && CappedRead(c, r).2 == Some(TooLarge)
    ensures CappedRead(CappedRead(c, r).0, again) == (CappedRead(c, r).0, [], Some(TooLarge))
  {
  }

  // ---- the metadata path ----

  // io.ReadAll over a reader limited to `limit` bytes: the bytes, and whether it finished without
  // an error; None when the rounds did not suffice.
  function ReadAll(source: Source, limit: int, rounds: seq<Round>): Option<(Bytes, bool)>
    decreases |rounds|
  {
    if limit <= 0 then Some(([], true))
    else if rounds == [] then None
    else
      var k := if rounds[0].k > limit then limit else rounds[0].k;
      var (source', bytes, err) := source.Read(k, rounds[0].choice);
      if err.Some? then Some((bytes, err.value == Eof))
      else
        var more := ReadAll(source', limit - |bytes|, rounds[1..]);
        if more.None? then None else Some((bytes + more.value.0, more.value.1))
  }

  // The source reports its end together with the byte that reaches the limit.
  predicate EndsAtLimit(source: Source, limit: int, rounds: seq<Round>)
    decreases |rounds|
  {
    if limit <= 0 || rounds == [] then false
    else
      var k := if rounds[0].k > limit then limit else rounds[0].k;
      var (source', bytes, err) := source.Read(k, rounds[0].choice);
      if err.Some? then |bytes| == limit else EndsAtLimit(source', limit - |bytes|, rounds[1..])
  }

  function Take(data: Bytes, limit: int): Bytes {
    if limit <= 0 then [] else if |data| <= limit then data else data[..limit]
  }

  lemma TakeMore(data: Bytes, n: nat, limit: int)
    requires n <= |data| && n <= limit
    ensures data[..n] + Take(data[n..], limit - n) == Take(data, limit)
  {
    assert data[..n] + data[n..] == data;
    if limit < |data| && n < limit {
      assert data[..n] + data[n..][..limit - n] == data[..limit];
    }
  }

  // Whether reading up to the limit succeeds: the limit cuts off the end, or the end is a clean one.
  predicate Clean(source: Source, limit: int, rounds: seq<Round>) {
    source.end == Eof || limit <= 0 || |source.left| > limit
    || (|source.left| == limit && !EndsAtLimit(source, limit, rounds))
  }

  // One read of the metadata path: it goes on with the rest, or ends as the source does.
  lemma CleanStep(source: Source, limit: int, rounds: seq<Round>)
    requires limit > 0 && rounds != []
    ensures var k := if rounds[0].k > limit then limit else rounds[0].k;
      var (source', bytes, err) := source.Read(k, rounds[0].choice);
      && |bytes| <= limit && bytes == source.left[..|bytes|] && source'.left == source.left[|bytes|..]
      && (err.None? ==> Clean(source, limit, rounds) == Clean(source', limit - |bytes|, rounds[1..]))
      && (err.Some? ==> bytes == source.left && Clean(source, limit, rounds) == (err.value == Eof))
  {
    assert source.left[..|source.left|] == source.left;
    var k := if rounds[0].k > limit then limit else rounds[0].k;
    var (source', bytes, err) := source.Read(k, rounds[0].choice);
    if err.None? {
      assert EndsAtLimit(source, limit, rounds) == EndsAtLimit(source', limit - |bytes|, rounds[1..]);
    }
  }

  // Reading up to the limit gives the first bytes, however the source splits them.
  lemma {:induction false} ReadAllTakesPrefix(source: Source, limit: int, rounds: seq<Round>)
    requires ReadAll(source, limit, rounds).Some?
    ensures ReadAll(source, limit, rounds).value.0 == Take(source.left, limit)
    decreases |rounds|
  {
    if limit > 0 {
      var k := if rounds[0].k > limit then limit else rounds[0].k;
      var (source', bytes, err) := source.Read(k, rounds[0].choice);
      TakeMore(source.left, |bytes|, limit);
      if err.None? {
        ReadAllTakesPrefix(source', limit - |bytes|, rounds[1..]);
      } else {
        assert bytes == source.left;
      }
    }
  }

  // It fails exactly if a broken end is seen before the limit cuts it off.
  lemma {:induction false} ReadAllFailsIff(source: Source, limit: int, rounds: seq<Round>)
    requires ReadAll(source, limit, rounds).Some?
    ensures ReadAll(source, limit, rounds).value.1 == Clean(source, limit, rounds)
    decreases |rounds|
  {
    if limit > 0 {
      var k := if rounds[0].k > limit then limit else rounds[0].k;
      var (source', bytes, err) := source.Read(k, rounds[0].choice);
      CleanStep(source, limit, rounds);
      if err.None? {
        ReadAllFailsIff(source', limit - |bytes|, rounds[1..]);
      }
    }
  }

  // The metadata path's verdict on a body it has read.
  function MetadataVerdict(source: Source, max: int, rounds: seq<Round>): Option<Result<Bytes, Error>> {
    match ReadAll(source, max + 1, rounds)
    case None => None
    case Some((bytes, ok)) =>
      Some(if !ok then Err(Broken) else if |bytes| > max then Err(TooLarge) else Ok(bytes))
  }

  // A body that breaks with the very byte that is one too many.
  predicate BreaksOneOver(data: Bytes, end: Error, max: int, meta: seq<Round>) {
    end != Eof && |data| == max + 1 && EndsAtLimit(Source(data, end), max + 1, meta)
  }

  // The metadata path accepts exactly the bodies within the cap that end cleanly. It refuses larger
  // ones as too large, unless they break with the very byte that is one too many.
  lemma MetadataOutcome(data: Bytes, end: Error, max: int, meta: seq<Round>)
    requires MetadataVerdict(Source(data, end), max, meta).Some?
    ensures MetadataVerdict(Source(data, end), max, meta).value
         == if max < 0 || (|data| > max && !BreaksOneOver(data, end, max, meta)) then Err(TooLarge)
            else if end != Eof then Err(Broken)
            else Ok(data)
  {
    ReadAllTakesPrefix(Source(data, end), max + 1, meta);
    ReadAllFailsIff(Source(data, end), max + 1, meta);
  }

  // For every source both paths report the same bodies as too large, except that under a positive
  // cap only the blob path does so for a body of exactly max bytes that ends late and for one that
  // breaks one byte over, and that only the metadata path enforces a cap that is not positive.
  lemma PathsAgreeIff(data: Bytes, end: Error, max: int, blob: seq<Round>, meta: seq<Round>)
    requires end != TooLarge
    requires Drain(New(data, end, max), blob).1.Some?
    requires MetadataVerdict(Source(data, end), max, meta).Some?
    ensures var tooLarge := Drain(New(data, end, max), blob).1.value == TooLarge;
      var verdict := MetadataVerdict(Source(data, end), max, meta).value;
      tooLarge == (verdict == Err(TooLarge)) <==>
        if max > 0 then
          && !(|data| == max && !EndsWithLastByte(New(data, end, max), blob))
          && !BreaksOneOver(data, end, max, meta)
        else max == 0 && (|data| == 0 || BreaksOneOver(data, end, max, meta))
  {
    DrainOutcome(New(data, end, max), blob);
    MetadataOutcome(data, end, max, meta);
  }

  // Two bytes under a cap of one, of which the second breaks: too large to one path, broken to the other.
  lemma OneOverCanBeBroken(b: bv8)
    ensures var all := Round(8, Choice(8, true), Choice(8, true));
      && Drain(New([b, b], Broken, 1), [all]) == ([b], Some(TooLarge))
      && MetadataVerdict(Source([b, b], Broken), 1, [all]) == Some(Err(Broken))
  {
    var all := Round(8, Choice(8, true), Choice(8, true));
    assert [b, b][..1] == [b] && [b, b][1..] == [b];
    assert CappedRead(New([b, b], Broken, 1), all).2 == Some(TooLarge);
  }

  // A body of exactly the cap that ends late is refused by the blob path and accepted by the other.
  lemma ExactlyMaxCanBeRefused(b: bv8)
    ensures var late := Round(8, Choice(8, false), Choice(1, false));
      && Drain(New([b], Eof, 1), [late, late]) == ([b], Some(TooLarge))
      && MetadataVerdict(Source([b], Eof), 1, [Round(8, Choice(8, true), Choice(1, false))]) == Some(Ok([b]))
  {
    var late := Round(8, Choice(8, false), Choice(1, false));
    var c := Capped(Source([], Eof), 1, 1, false);
    assert [b][1..] == [] && [b][..1] == [b];
    assert CappedRead(New([b], Eof, 1), late) == (c, [b], None);
    assert [late, late][1..] == [late];
    assert Drain(c, [late]) == ([], Some(TooLarge));
    assert [b] + [] == [b];
  }

  // ---- the reader as it runs ----

  class Upstream {
    var left: Bytes
    const end: Error

    constructor (data: Bytes, end: Error)
      ensures left == data && this.end == end
    {
      left := data;
      this.end := end;
    }

    function View(): Source
      reads this
    {
      Source(left, end)
    }

    method Read(k: nat, c: Choice) returns (bytes: Bytes, err: Option<Error>)
      modifies this
      ensures (View(), bytes, err) == old(View()).Read(k, c)
    {
      var n := View().Given(k, c);
      bytes := left[..n];
      err := if n == |left| && c.tell then Some(end) else None;
      left := left[n..];
    }
  }

  class CappedReadCloser {
    const rc: Upstream
    const max: int
    var read: int
    var tripped: bool

    constructor (rc: Upstream, max: int)
      ensures View() == Capped(rc.View(), max, 0, false)
      ensures this.rc == rc
    {
      this.rc := rc;
      this.max := max;
      read := 0;
      tripped := false;
    }

    function View(): Capped
      reads this, rc
    {
      Capped(rc.View(), max, read, tripped)
    }

    method Read(r: Round) returns (bytes: Bytes, err: Option<Error>)
      modifies this, rc
      ensures (View(), bytes, err) == CappedRead(old(View()), r)
    {
      if tripped {
        return [], Some(TooLarge);
      }
      var k := r.k;
      if max > 0 {
        var remaining := max - read;
        if remaining <= 0 {
          tripped := true;
          return [], Some(TooLarge);
        }
        if k > remaining {
          k := remaining;
        }
      }
      bytes, err := rc.Read(k, r.choice);
      read := read + |bytes|;
      if max > 0 && read >= max {
        var extra, _ := rc.Read(1, r.probe);
        if extra != [] {
          tripped := true;
          return bytes, Some(TooLarge);
        }
      }
    }
  }
}
