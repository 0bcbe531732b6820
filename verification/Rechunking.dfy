/** Uploading a stream in parts of one size, whatever the source's own chunks, and retrying one
    upload (`CloudDataCheckpointBlobStore` in `cloud-space-authority.ts`). */
module Rechunking {

  newtype Byte = x: int | 0 <= x < 256

  function Join(chunks: seq<seq<Byte>>): seq<Byte> {
    if chunks == [] then [] else chunks[0] + Join(chunks[1..])
  }

  lemma {:induction false} JoinAppend(chunks: seq<seq<Byte>>, last: seq<Byte>)
    ensures Join(chunks + [last]) == Join(chunks) + last
    decreases |chunks|
  {
    if chunks == [] {
      assert Join([last]) == last + Join([]);
    } else {
      assert (chunks + [last])[1..] == chunks[1..] + [last];
      JoinAppend(chunks[1..], last);
    }
  }

  function Min(a: nat, b: nat): nat {
    if a <= b then a else b
  }

  /** Every part has exactly `partBytes`, except a last one that ends at `size` and is not empty. */
  ghost predicate Uniform(parts: seq<seq<Byte>>, partBytes: nat, size: nat) {
    && (forall i :: 0 <= i < |parts| - 1 ==> |parts[i]| == partBytes)
    && (parts != [] ==> 0 < |parts[|parts| - 1]| <= partBytes)
    && (parts != [] && |parts[|parts| - 1]| < partBytes ==> |Join(parts)| == size)
  }

  /** The parts a size calls for. */
  function PartCount(size: nat, partBytes: nat): nat
    requires partBytes > 0
  {
    (size + partBytes - 1) / partBytes
  }

  lemma {:induction false} UniformLength(parts: seq<seq<Byte>>, partBytes: nat, size: nat)
    requires partBytes > 0 && Uniform(parts, partBytes, size) && parts != []
    ensures |Join(parts)| == (|parts| - 1) * partBytes + |parts[|parts| - 1]|
    decreases |parts|
  {
    var n := |parts| - 1;
    assert parts == parts[..n] + [parts[n]];
    JoinAppend(parts[..n], parts[n]);
    FullLength(parts[..n], partBytes);
  }

  lemma {:induction false} FullLength(parts: seq<seq<Byte>>, partBytes: nat)
    requires forall i :: 0 <= i < |parts| ==> |parts[i]| == partBytes
    ensures |Join(parts)| == |parts| * partBytes
    decreases |parts|
  {
    if parts != [] { FullLength(parts[1..], partBytes); }
  }

  /** Part numbers run from 1 to ceil(size / partBytes). */
  lemma UniformCount(parts: seq<seq<Byte>>, partBytes: nat, size: nat)
    requires partBytes > 0 && Uniform(parts, partBytes, size) && |Join(parts)| == size
    ensures |parts| == PartCount(size, partBytes)
  {
    if parts == [] {
      assert (partBytes - 1) / partBytes == 0;
    } else {
      UniformLength(parts, partBytes, size);
      var n, rest := |parts| - 1, |parts[|parts| - 1]|;
      Quotient(n + 1, rest - 1, partBytes);
      assert size + partBytes - 1 == (n + 1) * partBytes + (rest - 1);
    }
  }

  lemma Quotient(q: nat, r: nat, d: nat)
    requires r < d
    ensures (q * d + r) / d == q
  {
    var p := (q * d + r) / d;
    assert p * d <= q * d + r < p * d + d;
    assert (p - q) * d == p * d - q * d && (q - p) * d == q * d - p * d;
    BelowOne(p - q, d);
    BelowOne(q - p, d);
  }

  lemma BelowOne(x: int, d: nat)
    requires x * d < d
    ensures x < 1
  {
    assert x >= 1 ==> x * d >= d;
  }

  /** The bytes alone decide the parts: two sources of the same bytes upload the same parts. */
  lemma {:induction false} PartsUnique(a: seq<seq<Byte>>, b: seq<seq<Byte>>, partBytes: nat, size: nat)
    requires partBytes > 0 && Join(a) == Join(b) && |Join(a)| == size
    requires Uniform(a, partBytes, size) && Uniform(b, partBytes, size)
    ensures a == b
    decreases |a|
  {
    UniformCount(a, partBytes, size);
    UniformCount(b, partBytes, size);
    if |a| > 1 {
      assert a[0] == Join(a)[..partBytes] && b[0] == Join(b)[..partBytes];
      assert Join(a[1..]) == Join(a)[partBytes..] && Join(b[1..]) == Join(b)[partBytes..];
      assert a[1..][|a| - 2] == a[|a| - 1] && b[1..][|b| - 2] == b[|b| - 1];
      PartsUnique(a[1..], b[1..], partBytes, size - partBytes);
      assert a == [a[0]] + a[1..] && b == [b[0]] + b[1..];
    } else if |a| == 1 {
      assert Join(a) == a[0] + Join(a[1..]) && Join(b) == b[0] + Join(b[1..]);
      assert a[1..] == [] && b[1..] == [];
      assert a[0] + [] == a[0] && b[0] + [] == b[0];
    }
  }

  // ------------------------------------------------------------------ the upload loop

  datatype Outcome = Completed | TooLong | TooShort | WrongContent | UploadFailed

  /** An open multipart upload and the buffer its next part is gathered in. */
  class PartUpload {
    const size: nat
    const partBytes: nat
    var buffer: array<Byte>
    var filled: nat
    var parts: seq<seq<Byte>>
    var completed: bool

    /** Everything taken from the source so far. */
    ghost function Taken(): seq<Byte>
      requires filled <= buffer.Length
      reads this, buffer
    {
      Join(parts) + buffer[..filled]
    }

    ghost predicate Valid()
      reads this, buffer
    {
      && 0 < partBytes && Uniform(parts, partBytes, size)
      && |Join(parts)| + filled <= size
      && buffer.Length == Min(partBytes, size - |Join(parts)|)
      && filled <= buffer.Length && (filled == buffer.Length ==> buffer.Length == 0)
    }

    constructor (size: nat, partBytes: nat)
      requires 0 < size && 0 < partBytes
      ensures Valid() && Taken() == [] && this.size == size && this.partBytes == partBytes && !completed
      ensures fresh(buffer)
    {
      this.size, this.partBytes := size, partBytes;
      buffer, filled, parts, completed := new Byte[Min(partBytes, size)], 0, [], false;
    }

    /** Uploads the full buffer as the next part, if that request `works`, and starts the next buffer, of
        what is left. */
    method UploadPart(works: bool)
      requires 0 < partBytes && Uniform(parts, partBytes, size) && |Join(parts)| + filled <= size
      requires filled == buffer.Length == Min(partBytes, size - |Join(parts)|) && 0 < filled
      modifies this`parts, this`buffer, this`filled
      ensures works ==> Valid() && Taken() == old(Taken()) && fresh(buffer) && |parts| == |old(parts)| + 1
      ensures !works ==> parts == old(parts) && buffer == old(buffer) && filled == old(filled)
    {
      if !works { return; }
      JoinAppend(parts, buffer[..]);
      FullPartsSoFar(parts, partBytes, size);
      assert buffer[..filled] == buffer[..];
      ghost var taken := Taken();
      parts := parts + [buffer[..]];
      buffer := new Byte[Min(partBytes, size - |Join(parts)|)];
      filled := 0;
      assert Taken() == Join(parts) == taken;
    }

    /** Copies `bytes` after what the buffer holds. */
    method Copy(bytes: seq<Byte>)
      requires filled + |bytes| <= buffer.Length
      modifies buffer, this`filled
      ensures filled == old(filled) + |bytes| && buffer[..filled] == old(buffer[..filled]) + bytes
    {
      ghost var before := buffer[..filled];
      var k := 0;
      while k < |bytes|
        modifies buffer
        invariant 0 <= k <= |bytes|
        invariant buffer[..filled + k] == before + bytes[..k]
      {
        buffer[filled + k] := bytes[k];
        k := k + 1;
      }
      filled := filled + |bytes|;
    }

    /** Takes what fits of the rest of a chunk, and uploads the part it completes. */
    method TakeSome(rest: seq<Byte>, works: nat -> bool) returns (ok: bool, count: nat)
      requires Valid() && rest != [] && |Taken()| + |rest| <= size
      modifies this`parts, this`buffer, this`filled, buffer
      ensures 0 < count <= |rest|
      ensures ok ==> Valid() && Taken() == old(Taken()) + rest[..count]
      ensures Uploaded(old(parts), ok, works)
      ensures buffer == old(buffer) || fresh(buffer)
    {
      count := Min(buffer.Length - filled, |rest|);
      Copy(rest[..count]);
      assert Taken() == old(Taken()) + rest[..count];
      ok := true;
      if filled == buffer.Length {
        ok := works(|parts|);
        PartMissing(parts, partBytes, size, filled);
        UploadPart(ok);
      }
    }

    /** Every request since `before` worked, unless the next one failed. */
    ghost predicate Uploaded(before: seq<seq<Byte>>, ok: bool, works: nat -> bool)
      reads this
      requires partBytes > 0
    {
      && |before| <= |parts| && (forall k :: |before| <= k < |parts| ==> works(k))
      && (!ok ==> |parts| < PartCount(size, partBytes) && !works(|parts|))
    }

    /** One chunk of the source. */
    method TakeChunk(input: seq<Byte>, works: nat -> bool) returns (ok: bool)
      requires Valid() && |Taken()| + |input| <= size
      modifies this`parts, this`buffer, this`filled, buffer
      ensures ok ==> Valid() && Taken() == old(Taken()) + input
      ensures Uploaded(old(parts), ok, works)
      ensures buffer == old(buffer) || fresh(buffer)
    {
      var offset := 0;
      while offset < |input|
        invariant offset <= |input| && Valid() && Uploaded(old(parts), true, works)
        invariant Taken() == old(Taken()) + input[..offset]
        invariant buffer == old(buffer) || fresh(buffer)
      {
        var count;
        ok, count := TakeSome(input[offset..], works);
        if !ok { return; }
        assert input[..offset + count] == input[..offset] + input[offset..][..count];
        offset := offset + count;
      }
      assert input[..offset] == input;
      ok := true;
    }

    /** `putStream` above one request's size.  `works` says which parts' requests work, `finishes` whether
        the last request does.  It completes exactly when the source is what was declared and every
        request works, and the parts are then the source in uniform parts. */
    method PutStream(source: seq<seq<Byte>>, expected: seq<Byte>, works: nat -> bool, finishes: bool) returns (outcome: Outcome)
      requires Valid() && Taken() == [] && parts == [] && !completed
      modifies this, buffer
      ensures completed <==> outcome == Completed
      ensures outcome == Completed ==>
                && Join(parts) == Join(source) == expected && |Join(source)| == size
                && Uniform(parts, partBytes, size) && |parts| == PartCount(size, partBytes)
      ensures outcome == Completed <==>
                Join(source) == expected && |expected| == size && finishes && forall k :: 0 <= k < PartCount(size, partBytes) ==> works(k)
      // Every other outcome but a failed request is decided by the bytes alone.
      ensures outcome == UploadFailed ==> !finishes || exists k :: 0 <= k < PartCount(size, partBytes) && !works(k)
      ensures outcome == TooLong ==> |Join(source)| > size
      ensures outcome == TooShort ==> |Join(source)| < size
      ensures outcome == WrongContent ==> |Join(source)| == size && Join(source) != expected
    {
      var hashed: seq<Byte> := [];
      var total, k := 0, 0;
      while k < |source|
        invariant k <= |source| && Valid() && total == |Taken()| && !completed
        invariant hashed == Taken() == Join(source[..k]) && Uploaded([], true, works)
        invariant buffer == old(buffer) || fresh(buffer)
      {
        var input := source[k];
        assert source[..k + 1] == source[..k] + [input];
        JoinAppend(source[..k], input);
        PrefixLength(source, k + 1);
        if |input| > size - total { return TooLong; }
        total, hashed := total + |input|, hashed + input;
        var ok := TakeChunk(input, works);
        if !ok { return UploadFailed; }
        k := k + 1;
      }
      assert source[..k] == source;
      if total != size { return TooShort; }
      if hashed != expected { return WrongContent; }
      completed := finishes;
      if !completed { return UploadFailed; }
      assert filled == 0;
      assert Taken() == Join(parts);
      UniformCount(parts, partBytes, size);
      outcome := Completed;
    }
  }

  /** A part still to be uploaded is one of those the size calls for. */
  lemma PartMissing(parts: seq<seq<Byte>>, partBytes: nat, size: nat, filled: nat)
    requires 0 < partBytes && Uniform(parts, partBytes, size) && |Join(parts)| + filled <= size && 0 < filled
    ensures |parts| < PartCount(size, partBytes)
  {
    FullPartsSoFar(parts, partBytes, size);
    FullLength(parts, partBytes);
    MorePartsNeeded(|parts|, partBytes, size);
  }

  lemma MorePartsNeeded(n: nat, partBytes: nat, size: nat)
    requires 0 < partBytes && n * partBytes < size
    ensures n < PartCount(size, partBytes)
  {
    var count := PartCount(size, partBytes);
    assert size <= count * partBytes;
    assert (count - n) * partBytes == count * partBytes - n * partBytes;
    BelowOne(n - count, partBytes) by { assert (n - count) * partBytes == n * partBytes - count * partBytes; }
    assert n != count;
  }

  /** While bytes are missing, every part so far is a full one. */
  lemma FullPartsSoFar(parts: seq<seq<Byte>>, partBytes: nat, size: nat)
    requires Uniform(parts, partBytes, size) && |Join(parts)| < size
    ensures forall i :: 0 <= i < |parts| ==> |parts[i]| == partBytes
  {
  }

  lemma {:induction false} PrefixLength(source: seq<seq<Byte>>, k: nat)
    requires k <= |source|
    ensures |Join(source[..k])| <= |Join(source)|
    decreases |source|
  {
    if k > 0 {
      assert source[..k][1..] == source[1..][..k - 1];
      PrefixLength(source[1..], k - 1);
    }
  }

  // ------------------------------------------------------------------ retries

  const MAX_ATTEMPTS := 10

  /** What one attempt came to: a failure may be an expired signature, and may be transient. */
  datatype Attempt = Succeeded | Failed(expired: bool, transient: bool)

  function Power(n: nat): nat {
    if n == 0 then 1 else 2 * Power(n - 1)
  }

  /** The wait before attempt `i` is repeated, in milliseconds: doubled each time, up to five seconds. */
  function Backoff(i: nat): nat {
    if i < 5 then [250, 500, 1000, 2000, 4000][i] else 5000
  }

  lemma {:induction false} PowerGrows(n: nat, m: nat)
    requires n <= m
    ensures Power(n) <= Power(m)
  {
    if n < m { PowerGrows(n, m - 1); }
  }

  lemma BackoffIs(i: nat)
    ensures Min(250 * Power(i), 5000) == Backoff(i)
  {
    assert Power(1) == 2 && Power(2) == 4 && Power(3) == 8 && Power(4) == 2 * Power(3) && Power(5) == 2 * Power(4);
    if i >= 5 { PowerGrows(5, i); }
  }

  /** The place of the wait after attempt `i` among all waits. */
  function WaitAt(i: nat, resigned: Renewal): nat {
    if resigned.At? && resigned.index < i then i - 1 else i
  }

  /** Among the first `n` attempts, all failed, `resigned` is the first whose signature had expired. */
  ghost predicate FirstExpired(attempts: nat -> Attempt, n: nat, resigned: Renewal) {
    && (resigned.At? ==> resigned.index < n && attempts(resigned.index).Failed? && attempts(resigned.index).expired)
    && forall i :: 0 <= i < (if resigned.At? then resigned.index else n) ==> attempts(i).Failed? && !attempts(i).expired
  }

  /** The attempt answered by a fresh signature, if one was. */
  datatype Renewal = Never | At(index: nat)

  /** Bounded retries: at most ten attempts, at most one of them repeated with a fresh signature and
      no wait, every other repeat after a wait that doubles from a quarter of a second to five seconds. */
  method WithUploadRetries(attempts: nat -> Attempt) returns (ok: bool, made: nat, waits: seq<nat>, resigned: Renewal)
    ensures 1 <= made <= MAX_ATTEMPTS
    ensures ok <==> attempts(made - 1).Succeeded?
    // Every earlier attempt failed, transiently or with the one expiry that is renewed.
    ensures forall i :: 0 <= i < made - 1 ==> attempts(i).Failed? && (resigned == At(i) || attempts(i).transient)
    // The expired signature that is renewed is the first one.
    ensures FirstExpired(attempts, made - 1, resigned)
    // It gives up only at the tenth attempt or on a failure it may not repeat.
    ensures !ok && made < MAX_ATTEMPTS ==>
              !attempts(made - 1).transient && (attempts(made - 1).expired ==> resigned.At?)
    ensures |waits| == made - 1 - (if resigned.At? then 1 else 0)
    ensures forall i :: 0 <= i < made - 1 && resigned != At(i) ==> WaitAt(i, resigned) < |waits| && waits[WaitAt(i, resigned)] == Backoff(i)
  {
    resigned, waits := Never, [];
    var index := 0;
    while true
      invariant 0 <= index < MAX_ATTEMPTS
      invariant forall i :: 0 <= i < index ==> attempts(i).Failed? && (resigned == At(i) || attempts(i).transient)
      invariant FirstExpired(attempts, index, resigned)
      invariant |waits| == index - (if resigned.At? then 1 else 0)
      invariant forall i :: 0 <= i < index && resigned != At(i) ==> WaitAt(i, resigned) < |waits| && waits[WaitAt(i, resigned)] == Backoff(i)
      decreases MAX_ATTEMPTS - index
    {
      var attempt := attempts(index);
      if attempt.Succeeded? { return true, index + 1, waits, resigned; }
      var expired := resigned == Never && attempt.expired;
      if index + 1 >= MAX_ATTEMPTS || !(expired || attempt.transient) { return false, index + 1, waits, resigned; }
      if expired {
        resigned := At(index);
      } else {
        BackoffIs(index);
        waits := waits + [Min(250 * Power(index), 5000)];
      }
      index := index + 1;
    }
  }
}
