/** Multipart upload on the client: cutting a file into parts under short reads.
    And on the server: estimating the part sizes afterwards. */
module Multipart {
  import opened Prelude
  import opened Sums
  import opened Files

  // ---- the intended cut

  /** The file in pieces of `size` bytes, the last one possibly shorter. */
  function Cut(data: seq<Byte>, size: nat): seq<seq<Byte>>
    requires size > 0
    decreases |data|
  {
    if data == [] then []
    else
      var n := Smaller(size, |data|);
      [data[..n]] + Cut(data[n..], size)
  }

  function Join(pieces: seq<seq<Byte>>): seq<Byte> {
    if pieces == [] then [] else pieces[0] + Join(pieces[1..])
  }

  /** `n` is `total / size` rounded up. */
  predicate IsCeiling(n: int, total: int, size: int) {
    (n - 1) * size < total <= n * size || (total == 0 && n == 0)
  }

  /** The pieces make up the file; there are ceil(total / size) of them; all but the last are full and
      the last is not empty. */
  lemma {:induction false} CutIsExact(data: seq<Byte>, size: nat)
    requires size > 0
    ensures var pieces := Cut(data, size);
            && Join(pieces) == data
            && IsCeiling(|pieces|, |data|, size)
            && (forall i :: 0 <= i < |pieces| - 1 ==> |pieces[i]| == size)
            && (pieces != [] ==> 1 <= |pieces[|pieces| - 1]| <= size)
    decreases |data|
  {
    if data != [] {
      var n := Smaller(size, |data|);
      CutIsExact(data[n..], size);
      assert data == data[..n] + data[n..];
      var pieces, rest := Cut(data, size), Cut(data[n..], size);
      assert pieces[1..] == rest;
      Distribute(|rest|, size);
      forall i | 0 <= i < |pieces| - 1 ensures |pieces[i]| == size {
        if i > 0 { assert pieces[i] == rest[i - 1]; }
      }
    }
  }

  lemma Distribute(n: int, size: int)
    ensures (n + 1) * size == n * size + size
    ensures (n - 1) * size == n * size - size
  {
  }

  /** Cutting after a whole number of pieces. */
  lemma {:induction false} CutAppend(data: seq<Byte>, size: nat, pieces: nat, done: nat)
    requires size > 0 && done == pieces * size && done < |data|
    ensures Cut(data[..done], size) + Cut(data[done..], size) == Cut(data, size)
    decreases pieces
  {
    if pieces == 0 {
      assert data[..0] == [] && data[0..] == data;
    } else {
      Distribute(pieces, size);
      ProductNonnegative(pieces - 1, size);
      CutAppend(data[size..], size, pieces - 1, done - size);
      CutHead(data, size, done);
    }
  }

  /** Cutting a prefix starts with the same piece as cutting the whole. */
  lemma CutHead(data: seq<Byte>, size: nat, done: nat)
    requires 0 < size <= done < |data|
    requires Cut(data[size..][..done - size], size) + Cut(data[size..][done - size..], size) == Cut(data[size..], size)
    ensures Cut(data[..done], size) + Cut(data[done..], size) == Cut(data, size)
  {
    var rest := data[size..];
    assert data[..done][..size] == data[..size] && data[..done][size..] == rest[..done - size];
    assert rest[done - size..] == data[done..];
  }

  // ---- the chunking loop

  const I32_MAX: int := 0x7FFF_FFFF

  /** i32 addition in a release build. */
  function Wrap32(x: int): int {
    (x + I32_MAX + 1) % (2 * (I32_MAX + 1)) - I32_MAX - 1
  }

  lemma Wrap32Step(x: int)
    ensures Wrap32(Wrap32(x) + 1) == Wrap32(x + 1)
  {
  }

  /** Part numbers count 1, 2, ... exactly as long as they fit in an i32. */
  lemma NumbersExact(i: nat)
    ensures Wrap32(i + 1) == i + 1 <==> i + 1 <= I32_MAX
  {
  }

  datatype Part = Part(number: int, body: seq<Byte>, etag: string)

  function Bodies(parts: seq<Part>): (bodies: seq<seq<Byte>>)
    ensures |bodies| == |parts|
  {
    seq(|parts|, i requires 0 <= i < |parts| => parts[i].body)
  }

  /** Fills the buffer as far as the file goes. */
  method FillPart(file: File, buf: array<Byte>) returns (ok: bool, read: nat)
    requires file.pos <= |file.data|
    modifies file`pos, file`calls, buf
    ensures file.pos <= |file.data|
    ensures ok ==>
              && read == Smaller(buf.Length, |file.data| - old(file.pos))
              && file.pos == old(file.pos) + read
              && buf[..read] == file.data[old(file.pos)..file.pos]
    ensures file.calls >= old(file.calls)
    ensures !ok ==> buf.Length > 0 && exists i :: old(file.calls) <= i < file.calls && file.plan(i) < 0
  {
    read := 0;
    while read < buf.Length
      invariant read <= buf.Length && file.pos == old(file.pos) + read <= |file.data|
      invariant buf[..read] == file.data[old(file.pos)..file.pos]
      invariant file.calls >= old(file.calls)
    {
      ghost var middle := file.pos;
      var r := file.Read(buf, read);
      if r.IoError? {
        assert file.plan(file.calls - 1) < 0;
        return false, read;
      }
      if r.n == 0 { break; }
      assert file.data[old(file.pos)..middle] + file.data[middle..file.pos] == file.data[old(file.pos)..file.pos];
      read := read + r.n;
    }
    ok := true;
  }

  /** Every part is numbered in turn and carries the tag with which the storage accepted it. */
  predicate Accepted(parts: seq<Part>, send: int -> Option<string>) {
    forall i :: 0 <= i < |parts| ==>
      parts[i].number == Wrap32(i + 1) && send(parts[i].number) == Some(parts[i].etag)
  }

  /** The first `pos` bytes have been cut into `parts`, all full unless the file has ended. */
  ghost predicate CutSoFar(data: seq<Byte>, size: nat, parts: seq<Part>, pos: nat)
    requires pos <= |data|
  {
    size > 0 ==> Bodies(parts) == Cut(data[..pos], size) && (pos == |parts| * size || pos == |data|)
  }

  /** Cuts the file into parts and sends them. `send(number)` is the entity tag with which the storage
      accepts that part, or None when presigning or sending it fails. */
  method UploadParts(file: File, partSize: nat, send: int -> Option<string>) returns (ok: bool, parts: seq<Part>)
    requires file.pos == 0
    modifies file`pos, file`calls
    ensures Accepted(parts, send)
    ensures ok && partSize > 0 ==> Bodies(parts) == Cut(file.data, partSize)
    ensures partSize == 0 ==> ok && parts == []
    ensures !ok ==>
              || (exists i :: old(file.calls) <= i < file.calls && file.plan(i) < 0)
              || send(Wrap32(|parts| + 1)).None?
  {
    var buf := new Byte[partSize];
    var number := 1;
    parts := [];
    assert Bodies(parts) == [] && file.data[..0] == [];
    while true
      invariant file.pos <= |file.data| && file.calls >= old(file.calls)
      invariant number == Wrap32(|parts| + 1) && Accepted(parts, send)
      invariant CutSoFar(file.data, partSize, parts, file.pos)
      invariant partSize == 0 ==> parts == []
      decreases |file.data| - file.pos
    {
      ghost var start := file.pos;
      var filled, read := FillPart(file, buf);
      if !filled { return false, parts; }
      if read == 0 { break; }
      var etag := send(number);
      if etag.None? { return false, parts; }
      ghost var before := parts;
      parts := parts + [Part(number, buf[..read], etag.value)];
      Wrap32Step(|before| + 1);
      number := Wrap32(number + 1);
      CutGrows(file.data, partSize, before, parts, start, file.pos);
    }
    assert partSize > 0 ==> file.pos == |file.data|;
    assert file.data[..|file.data|] == file.data;
    ok := true;
  }

  /** One more piece of the cut. */
  lemma CutGrows(data: seq<Byte>, size: nat, before: seq<Part>, parts: seq<Part>, start: nat, end: nat)
    requires size > 0 && start < |data| && CutSoFar(data, size, before, start)
    requires end == start + Smaller(size, |data| - start)
    requires |parts| == |before| + 1 && parts[..|before|] == before && parts[|before|].body == data[start..end]
    ensures CutSoFar(data, size, parts, end)
  {
    var prefix, last := data[..end], data[start..end];
    CutAppend(prefix, size, |before|, start);
    assert prefix[..start] == data[..start] && prefix[start..] == last;
    assert last[..|last|] == last && last[|last|..] == [];
    assert Cut(last, size) == [last];
    assert Bodies(parts) == Bodies(before) + [last];
    Distribute(|before|, size);
  }

  // ---- part sizes as the server estimates them

  /** The estimates of multipart_complete for `n` parts and a reported size. */
  function Average(size: int, n: int): int
    requires n > 0
  {
    var avg := size / n;
    if avg > 1 then avg else 1
  }

  function Estimate(size: int, n: int, idx: int): int
    requires n > 0
  {
    if idx == n - 1 then
      var last := size - Average(size, n) * (n - 1);
      if last > 0 then last else 0
    else Average(size, n)
  }

  function SumOf(xs: seq<int>): int {
    if xs == [] then 0 else SumOf(xs[..|xs| - 1]) + xs[|xs| - 1]
  }

  /** The sum of the first `m` estimates. */
  function TotalEstimate(size: int, n: int, m: nat): int
    requires n > 0
  {
    if m == 0 then 0 else TotalEstimate(size, n, m - 1) + Estimate(size, n, m - 1)
  }

  /** The loop that records one estimate per part; nothing is recorded without parts or bytes. */
  method ObserveParts(size: int, n: nat) returns (observed: seq<int>)
    requires size >= 0
    ensures if size == 0 || n == 0 then observed == []
            else |observed| == n && forall i :: 0 <= i < n ==> observed[i] == Estimate(size, n, i)
    ensures size > 0 && n > 0 ==> SumOf(observed) == if size > n - 1 then size else n - 1
  {
    observed := [];
    if n > 0 && size > 0 {
      var avg := size / n;
      if avg < 1 { avg := 1; }
      for idx := 0 to n
        invariant |observed| == idx
        invariant forall i :: 0 <= i < idx ==> observed[i] == Estimate(size, n, i)
        invariant SumOf(observed) == TotalEstimate(size, n, idx)
      {
        var estimate := avg;
        if idx == n - 1 {
          var consumed := avg * (n - 1);
          estimate := if size - consumed > 0 then size - consumed else 0;
        }
        assert (observed + [estimate])[..idx] == observed;
        observed := observed + [estimate];
      }
      EstimatesTotal(size, n);
    }
  }

  lemma QuotientUnique(x: int, n: int, q: int, m: int)
    requires n > 0 && x == q * n + m && 0 <= m < n
    ensures x / n == q
  {
    var k := q - x / n;
    assert k * n == q * n - x / n * n;
    if k >= 1 { ProductNonnegative(k - 1, n); } else if k <= -1 { ProductNonnegative(-1 - k, n); }
  }

  lemma {:induction false} FullEstimates(size: int, n: int, m: nat)
    requires n > 0 && m < n
    ensures TotalEstimate(size, n, m) == m * Average(size, n)
  {
    if m > 0 {
      FullEstimates(size, n, m - 1);
      Distribute(m, Average(size, n));
    }
  }

  /** The estimates add up to the size, unless there are more parts than bytes. */
  lemma EstimatesTotal(size: int, n: int)
    requires size > 0 && n > 0
    ensures TotalEstimate(size, n, n) == if size > n - 1 then size else n - 1
  {
    FullEstimates(size, n, n - 1);
    AverageFits(size, n);
    var others := Average(size, n) * (n - 1);
    assert Estimate(size, n, n - 1) == if size > others then size - others else 0;
    hide Average, Estimate;
  }

  /** `n - 1` averages are no more than the size, unless the average had to be clamped to 1. */
  lemma AverageFits(size: int, n: int)
    requires size > 0 && n > 0
    ensures if size >= n then (n - 1) * Average(size, n) < size else Average(size, n) == 1
  {
    var q, m := size / n, size % n;
    assert size == n * q + m;
    if size >= n {
      if q <= 0 { ProductNonnegative(-q, n); }
      assert (n - 1) * q == n * q - q;
    } else {
      QuotientUnique(size, n, 0, size);
    }
  }

  /** For a file really cut into `n - 1` parts of `p` bytes and a last one of `r`, every estimate but
      the last is below `p` by exactly ceil((p - r) / n), and the clamp to 1 changes nothing. */
  lemma EstimateAgainstCut(p: int, r: int, n: int, short: int, idx: int)
    requires n > 0 && 1 <= r <= p && 0 <= idx < n - 1 && IsCeiling(short, p - r, n)
    ensures var size := (n - 1) * p + r; size / n >= 1 && Estimate(size, n, idx) == p - short
  {
    var size := (n - 1) * p + r;
    CutQuotient(p, r, n, short);
    QuotientUnique(size, n, p - short, short * n - (p - r));
  }

  lemma CutQuotient(p: int, r: int, n: int, short: int)
    requires n > 1 && 1 <= r <= p && IsCeiling(short, p - r, n)
    ensures (n - 1) * p + r == (p - short) * n + (short * n - (p - r))
    ensures 0 <= short * n - (p - r) < n
    ensures p - short >= 1
  {
    assert (n - 1) * p == n * p - p;
    assert (p - short) * n == n * p - short * n;
    if short >= p { ProductNonnegative(short - p, n); ProductNonnegative(p - 1, n - 1); }
  }
}
