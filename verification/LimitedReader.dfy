/** The response-size limit of outgoing requests: a reader that passes bytes through until a limit.
    The underlying stream decides per call how much of the request it fills and which error it returns. */
module LimitedReader {
  import opened Base

  /** None, end of stream, another error of the stream, the limit error, or the panic of a slice with a negative
      bound. */
  datatype Error = NoError | EndOfStream | StreamError | TooLarge | Panic

  /** One call: the caller's buffer size, the bytes the stream is willing to give, and the error it returns. */
  datatype Call = Call(buffer: nat, offered: nat, error: Error)

  /** The stream's unread bytes and the bytes still allowed. */
  datatype Reader = Reader(rest: seq<byte>, remaining: int64)

  function Min(a: int, b: int): int {
    if a < b then a else b
  }

  /** The underlying Read on a buffer of `size` bytes: at most that many, at most what is left. */
  function StreamRead(rest: seq<byte>, size: nat, call: Call): (n: nat)
    ensures n <= size && n <= |rest|
  {
    Min(Min(size, call.offered), |rest|)
  }

  /** An end of stream is reported only when nothing is left; the stream raises neither the limit error nor a panic. */
  predicate Honest(rest: seq<byte>, size: nat, call: Call) {
    call.error != TooLarge && call.error != Panic &&
        (call.error == EndOfStream ==> StreamRead(rest, size, call) == |rest|)
  }

  /** The buffer size actually passed down: one byte past the limit, to notice that there is more. */
  function Asked(r: Reader, call: Call): nat {
    if r.remaining <= 0 then 1 else if Overflows(r) then 0 else Min(call.buffer, r.remaining + 1)
  }

  /** The int64 sum remaining + 1 wraps around to a negative bound, shorter than any buffer. */
  predicate Overflows(r: Reader) {
    r.remaining > 0 && Wrap64(r.remaining + 1) < 0
  }

  /** limitedReadCloser.Read: the new reader, the bytes handed to the caller, and the error. */
  function Read(r: Reader, call: Call): (Reader, seq<byte>, Error) {
    var n := StreamRead(r.rest, Asked(r, call), call);
    var rest := r.rest[n..];
    if Overflows(r) then (r, [], Panic)
    else if r.remaining <= 0 then (r.(rest := rest), [], if n > 0 then TooLarge else call.error)
    else if n > r.remaining then (Reader(rest, 0), r.rest[..r.remaining], TooLarge)
    else (Reader(rest, r.remaining - n), r.rest[..n], call.error)
  }

  /** All calls in turn: the reader, everything handed out, and the errors returned. */
  function ReadAll(r: Reader, calls: seq<Call>): (Reader, seq<byte>, seq<Error>) {
    if calls == [] then (r, [], [])
    else
      var before := ReadAll(r, calls[..|calls| - 1]);
      var (r', bytes, e) := Read(before.0, calls[|calls| - 1]);
      (r', before.1 + bytes, before.2 + [e])
  }

  ghost predicate HonestCalls(r: Reader, calls: seq<Call>) {
    forall i | 0 <= i < |calls| ::
      var before := ReadAll(r, calls[..i]).0; Honest(before.rest, Asked(before, calls[i]), calls[i])
  }

  function Allowance(limit: int64): nat {
    if limit < 0 then 0 else limit
  }

  const MAX_INT64: int := 0x7fff_ffff_ffff_ffff

  /** Before the limit error nothing is lost; from then on the output is the allowed prefix of a stream that is
      longer. */
  ghost predicate Passed(stream: seq<byte>, limit: int64, r: Reader, out: seq<byte>, errors: seq<Error>) {
    && |out| <= Allowance(limit) && out <= stream
    && (TooLarge !in errors ==>
          stream == out + r.rest && r.remaining == limit - |out|
          && (EndOfStream in errors ==> r.rest == []))
    && (TooLarge in errors ==> |stream| > Allowance(limit) && out == stream[..Allowance(limit)] && r.remaining <= 0)
  }

  lemma ReadPasses(stream: seq<byte>, limit: int64, r: Reader, out: seq<byte>, errors: seq<Error>, call: Call)
    requires Passed(stream, limit, r, out, errors) && Honest(r.rest, Asked(r, call), call)
    ensures var (r', bytes, e) := Read(r, call); Passed(stream, limit, r', out + bytes, errors + [e])
  {
    var (r', bytes, e) := Read(r, call);
    var n := StreamRead(r.rest, Asked(r, call), call);
    assert out + [] == out;
    assert r.rest == r.rest[..n] + r.rest[n..];
    if TooLarge !in errors {
      assert forall m | 0 <= m <= |r.rest| :: out + r.rest[..m] == stream[..|out| + m];
    }
  }

  lemma {:induction false} ReadAllPasses(stream: seq<byte>, limit: int64, calls: seq<Call>)
    requires HonestCalls(Reader(stream, limit), calls)
    ensures var (r, out, errors) := ReadAll(Reader(stream, limit), calls); Passed(stream, limit, r, out, errors)
  {
    if calls != [] {
      var rest := calls[..|calls| - 1];
      forall i | 0 <= i < |rest| ensures rest[..i] == calls[..i] {}
      ReadAllPasses(stream, limit, rest);
      var (r, out, errors) := ReadAll(Reader(stream, limit), rest);
      ReadPasses(stream, limit, r, out, errors, calls[|calls| - 1]);
    }
  }

  /** For every stream, buffer sizes and stream behaviour: the output is a prefix of the stream within the limit; the
      limit error appears only for a longer stream; a stream that fits is delivered whole when its end is reached. */
  lemma LimitedReads(stream: seq<byte>, limit: int64, calls: seq<Call>)
    requires HonestCalls(Reader(stream, limit), calls)
    ensures var (r, out, errors) := ReadAll(Reader(stream, limit), calls);
      && out <= stream && |out| <= Allowance(limit)
      && (TooLarge in errors ==> |stream| > Allowance(limit) && out == stream[..Allowance(limit)])
      && (EndOfStream in errors && TooLarge !in errors ==> out == stream)
      && (|stream| <= Allowance(limit) ==> TooLarge !in errors)
  {
    ReadAllPasses(stream, limit, calls);
  }

  /** No oversized stream slips through: reaching its end takes the limit error first. */
  lemma OversizedIsNoticed(stream: seq<byte>, limit: int64, calls: seq<Call>)
    requires HonestCalls(Reader(stream, limit), calls) && |stream| > Allowance(limit)
    requires EndOfStream in ReadAll(Reader(stream, limit), calls).2
    ensures TooLarge in ReadAll(Reader(stream, limit), calls).2
  {
    ReadAllPasses(stream, limit, calls);
  }

  /** One call never takes more than one byte beyond the limit from the stream; and when buffer and stream have room for
      that byte, the same call reports the limit and hands out all that is allowed. */
  lemma NoticedAtOnce(r: Reader, call: Call)
    requires r.remaining != MAX_INT64
    ensures var (r', bytes, e) := Read(r, call);
      && |r.rest| - |r'.rest| <= Allowance(r.remaining) + 1
      && ((r.remaining <= 0 || call.buffer > r.remaining) && Min(call.offered, |r.rest|) > Allowance(r.remaining) ==>
            e == TooLarge && bytes == r.rest[..Allowance(r.remaining)])
  {
  }

  /** Reading panics exactly when the limit is the largest int64, and then on the first call. */
  lemma PanicsIff(stream: seq<byte>, limit: int64, calls: seq<Call>)
    requires HonestCalls(Reader(stream, limit), calls)
    ensures Panic in ReadAll(Reader(stream, limit), calls).2 <==> limit == MAX_INT64 && calls != []
  {
    ReadAllSafe(stream, limit, calls);
    var errors := ReadAll(Reader(stream, limit), calls).2;
    if calls != [] { assert errors[0] in errors; }
  }

  lemma ReadSafe(r: Reader, call: Call)
    requires Honest(r.rest, Asked(r, call), call)
    ensures var (r', _, e) := Read(r, call);
      if r.remaining == MAX_INT64 then r' == r && e == Panic else r'.remaining < MAX_INT64 && e != Panic
  {
  }

  lemma {:induction false} ReadAllSafe(stream: seq<byte>, limit: int64, calls: seq<Call>)
    requires HonestCalls(Reader(stream, limit), calls)
    ensures var (r, out, errors) := ReadAll(Reader(stream, limit), calls);
      && |errors| == |calls|
      && (limit == MAX_INT64 ==> r == Reader(stream, limit) && forall i | 0 <= i < |errors| :: errors[i] == Panic)
      && (limit != MAX_INT64 ==> r.remaining < MAX_INT64 && forall i | 0 <= i < |errors| :: errors[i] != Panic)
  {
    if calls != [] {
      var rest, call := calls[..|calls| - 1], calls[|calls| - 1];
      forall i | 0 <= i < |rest| ensures rest[..i] == calls[..i] {}
      ReadAllSafe(stream, limit, rest);
      ReadSafe(ReadAll(Reader(stream, limit), rest).0, call);
      hide Read, Honest, Asked;
    }
  }

  class LimitedReadCloser {
    var rest: seq<byte>
    var remaining: int64

    function View(): Reader
      reads this
    {
      Reader(rest, remaining)
    }

    constructor (stream: seq<byte>, limit: int64)
      ensures View() == Reader(stream, limit)
    {
      rest, remaining := stream, limit;
    }

    /** The underlying Read into the first `size` bytes of `p`. */
    method Fill(p: array<byte>, size: nat, call: Call) returns (n: nat)
      requires size <= p.Length
      modifies this, p
      ensures n == StreamRead(old(rest), size, call) && n <= size
      ensures rest == old(rest)[n..] && remaining == old(remaining)
      ensures p[..n] == old(rest)[..n]
      ensures forall i | n <= i < p.Length :: p[i] == old(p[i])
    {
      n := StreamRead(rest, size, call);
      for i := 0 to n
        invariant rest == old(rest) && remaining == old(remaining)
        invariant forall k | 0 <= k < i :: p[k] == rest[k]
        invariant forall k | i <= k < p.Length :: p[k] == old(p[k])
      {
        p[i] := rest[i];
      }
      rest := rest[n..];
    }

    /** limitedReadCloser.Read: the first `n` bytes of the caller's buffer are the bytes handed out. */
    method ReadInto(p: array<byte>, call: Call) returns (n: nat, e: Error)
      requires call.buffer == p.Length
      modifies this, p
      ensures n <= p.Length && (View(), p[..n], e) == Read(old(View()), call)
    {
      if remaining <= 0 {
        var one := new byte[1];
        var got := Fill(one, 1, call);
        n := 0;
        assert p[..0] == [];
        e := if got > 0 then TooLarge else call.error;
        return;
      }
      if Wrap64(remaining + 1) < 0 {
        n, e := 0, Panic;
        assert p[..0] == [];
        return;
      }
      var size := p.Length;
      if size > remaining + 1 { size := remaining + 1; }
      n := Fill(p, size, call);
      e := call.error;
      if n > remaining {
        assert p[..remaining] == p[..n][..remaining] == old(rest)[..remaining];
        n, e := remaining, TooLarge;
        remaining := 0;
      } else {
        remaining := remaining - n;
      }
    }
  }
}
