/** The receive buffer `pbuf`: bytes before `ofs` are read, bytes up to `len` are unread. */
module ReadBuffer {
  import opened Common
  import opened MpakFormat

  const INITIAL_BUFFER_SIZE: nat := 256

  /** The capacity after doubling until sz bytes fit. */
  function Doubled(limit: nat, sz: nat): (n: nat)
    requires limit >= 1
    ensures n >= sz && n >= limit && (n == limit || n < 2 * sz)
    decreases sz - limit
  {
    if sz > limit then Doubled(2 * limit, sz) else limit
  }

  class Pbuf {
    var mem: array?<byte>
    var len: nat
    var limit: nat
    var ofs: nat

    ghost predicate Valid()
      reads this, mem
    {
      if mem == null then len == 0 && limit == 0 && ofs == 0
      else ofs <= len <= limit == mem.Length && limit >= 1
    }

    ghost function Unread(): seq<byte>
      requires Valid()
      reads this, mem
    {
      if mem == null then [] else mem[ofs..len]
    }

    constructor ()
      ensures Valid() && mem == null
    {
      mem, len, limit, ofs := null, 0, 0, 0;
    }

    function Available(): nat
      requires Valid()
      reads this, mem
    {
      limit - len
    }

    static method Grow(from: nat, sz: nat) returns (n: nat)
      requires from >= 1
      ensures n == Doubled(from, sz)
    {
      n := from;
      while sz > n
        invariant n >= 1 && Doubled(n, sz) == Doubled(from, sz)
        decreases sz - n
      {
        n := 2 * n;
      }
    }

    /** reserve: room for sz more bytes.  What is unread is kept; the memory parsed so far
        is left behind untouched when a new block is taken. */
    method Reserve(sz: nat)
      requires Valid()
      modifies this
      ensures Valid() && Unread() == old(Unread()) && Available() >= sz
      ensures sz > 0 ==> mem != null
      ensures mem == old(mem) || fresh(mem)
      ensures old(Available()) >= sz ==> mem == old(mem) && len == old(len) && ofs == old(ofs)
      ensures old(Available()) < sz ==> ofs == 0 && mem != old(mem)
    {
      if Available() >= sz { return; }
      if mem != null {
        var copyb := len - ofs;
        var n := Grow(limit, sz + copyb);
        var p := new byte[n];
        var i := 0;
        while i < copyb
          modifies p
          invariant 0 <= i <= copyb && p[..i] == mem[ofs..ofs + i]
        {
          p[i] := mem[ofs + i];
          i := i + 1;
        }
        mem, limit, ofs, len := p, n, 0, copyb;
      } else {
        var n := Grow(INITIAL_BUFFER_SIZE, sz);
        mem, limit := new byte[n], n;
      }
    }

    /** Bytes arrive at last_p and are committed. */
    method Fill(data: seq<byte>)
      requires Valid() && mem != null && |data| <= Available()
      modifies mem, this`len
      ensures Valid() && Unread() == old(Unread()) + data
      ensures mem[..old(len)] == old(mem[..len]) && len == old(len) + |data|
    {
      var i := 0;
      while i < |data|
        modifies mem
        invariant 0 <= i <= |data| && Valid() && len + |data| <= limit
        invariant mem[len..len + i] == data[..i] && mem[..len] == old(mem[..len])
      {
        mem[len + i] := data[i];
        i := i + 1;
      }
      len := len + |data|;
      ghost var l := old(len);
      assert mem[l..len] == data;
      assert mem[ofs..l] == mem[..l][ofs..] == old(mem[ofs..len]);
      assert mem[ofs..len] == mem[ofs..l] + mem[l..len];
    }

    predicate Readable()
      reads this
    {
      ofs < len
    }

    method Pop() returns (b: byte)
      requires Valid() && Unread() != []
      modifies this`ofs
      ensures Valid() && b == old(Unread())[0] && Unread() == old(Unread())[1..]
    {
      b := mem[ofs];
      ofs := ofs + 1;
    }

    method AddParsedOfs(k: nat)
      requires Valid() && k <= |Unread()|
      modifies this`ofs
      ensures Valid() && Unread() == old(Unread())[k..]
    {
      ofs := ofs + k;
    }

    /** The k bytes at cur_p. */
    function Peek(k: nat): (s: seq<byte>)
      requires Valid() && k <= |Unread()|
      reads this, mem
      ensures s == Unread()[..k]
    {
      if mem == null then [] else mem[ofs..ofs + k]
    }
  }
}
