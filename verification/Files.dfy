/** Open files that return fewer bytes than asked for, as both reading loops of the client meet them. */
module Files {
  import opened Prelude

  function Smaller(x: int, y: int): int {
    if x < y then x else y
  }

  datatype ReadResult = Bytes(n: nat) | IoError

  /** An open file. The `i`-th read delivers at most `plan(i)` bytes, fails if `plan(i)` is negative,
      and always delivers something before the end of the file. */
  class File {
    const data: seq<Byte>
    const plan: nat -> int
    var pos: nat
    var calls: nat

    constructor (data: seq<Byte>, plan: nat -> int)
      ensures this.data == data && this.plan == plan && pos == 0 && calls == 0
    {
      this.data, this.plan := data, plan;
      pos, calls := 0, 0;
    }

    method Read(buf: array<Byte>, from: nat) returns (r: ReadResult)
      requires pos <= |data| && from < buf.Length
      modifies this`pos, this`calls, buf
      ensures calls == old(calls) + 1
      ensures r == IoError <==> plan(old(calls)) < 0
      ensures r == IoError ==> pos == old(pos) && buf[..] == old(buf[..])
      ensures r.Bytes? ==>
                && pos == old(pos) + r.n <= |data| && from + r.n <= buf.Length
                && (r.n == 0 <==> old(pos) == |data|)
                && buf[..from + r.n] == old(buf[..from]) + data[old(pos)..pos]
    {
      var want := plan(calls);
      calls := calls + 1;
      if want < 0 { return IoError; }
      var n := Smaller(if want == 0 then 1 else want, Smaller(buf.Length - from, |data| - pos));
      for i := 0 to n
        invariant buf[..from] == old(buf[..from])
        invariant buf[from..from + i] == data[old(pos)..old(pos) + i]
        invariant pos == old(pos) && calls == old(calls) + 1
      {
        buf[from + i] := data[pos + i];
      }
      pos := pos + n;
      return Bytes(n);
    }
  }
}
