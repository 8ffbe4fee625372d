/** Stream.h: a 1024-byte buffer with a write offset and a read pointer. */
module Streams {
  import opened Bytes

  const SOCKBUF_SIZE: nat := 1024

  /** What a read may do: deliver a value and move on, be skipped by the (write-side) bound
      check, or touch memory outside the buffer. */
  datatype Read<+T> = Value(value: T, pos: nat) | Skipped | Fault

  // ---- Writing ----

  /** A write goes in whole or, when it does not fit, not at all. */
  function Put(s: seq<Byte>, chunk: seq<Byte>): seq<Byte> {
    if |s| + |chunk| > SOCKBUF_SIZE then s else s + chunk
  }

  /** Successive writes. */
  function Emit(s: seq<Byte>, chunks: seq<seq<Byte>>): seq<Byte>
    decreases |chunks|
  {
    if chunks == [] then s else Emit(Put(s, chunks[0]), chunks[1..])
  }

  /** The bytes that the writes would produce in a buffer without a bound. */
  function Flatten(chunks: seq<seq<Byte>>): seq<Byte> {
    if chunks == [] then [] else chunks[0] + Flatten(chunks[1..])
  }

  /** No single write is longer than the header. */
  predicate Small(chunks: seq<seq<Byte>>) {
    forall i :: 0 <= i < |chunks| ==> |chunks[i]| <= 4
  }

  /** A string is written one character at a time, then a terminator. */
  function StrChunks(v: Str): (c: seq<seq<Byte>>)
    ensures |c| == |v| + 1
  {
    seq(|v|, i requires 0 <= i < |v| => [v[i]]) + [[0]]
  }

  lemma {:induction false} EmitConcat(s: seq<Byte>, a: seq<seq<Byte>>, b: seq<seq<Byte>>)
    ensures Emit(s, a + b) == Emit(Emit(s, a), b)
    decreases |a|
  {
    if a == [] {
      assert a + b == b;
    } else {
      assert (a + b)[0] == a[0] && (a + b)[1..] == a[1..] + b;
      EmitConcat(Put(s, a[0]), a[1..], b);
    }
  }

  lemma {:induction false} FlattenConcat(a: seq<seq<Byte>>, b: seq<seq<Byte>>)
    ensures Flatten(a + b) == Flatten(a) + Flatten(b)
  {
    if a == [] {
      assert a + b == b;
    } else {
      assert (a + b)[0] == a[0] && (a + b)[1..] == a[1..] + b;
      FlattenConcat(a[1..], b);
    }
  }

  lemma {:induction false} FlattenStr(v: Str)
    ensures Flatten(StrChunks(v)) == v + [0] && Small(StrChunks(v))
  {
    if v == [] {
      assert StrChunks(v) == [[0]];
      assert Flatten([[0]]) == [0] + Flatten([]);
    } else {
      var c := StrChunks(v);
      assert c[0] == [v[0]];
      assert c[1..] == StrChunks(v[1..]);
      FlattenStr(v[1..]);
    }
  }

  /** Writing never leaves the buffer, and as long as everything fits nothing is lost. */
  lemma {:induction false} EmitFits(s: seq<Byte>, chunks: seq<seq<Byte>>)
    requires |s| <= SOCKBUF_SIZE
    ensures |s| <= |Emit(s, chunks)| <= SOCKBUF_SIZE
    ensures |s| + |Flatten(chunks)| <= SOCKBUF_SIZE ==> Emit(s, chunks) == s + Flatten(chunks)
    decreases |chunks|
  {
    if chunks == [] {
      assert s + [] == s;
    } else {
      EmitFits(Put(s, chunks[0]), chunks[1..]);
      assert s + chunks[0] + Flatten(chunks[1..]) == s + Flatten(chunks);
    }
  }

  /** With writes of at most four bytes the final size tells whether anything was dropped
      below the last four bytes of the buffer. */
  lemma {:induction false} EmitSizeExact(s: seq<Byte>, chunks: seq<seq<Byte>>)
    requires |s| <= SOCKBUF_SIZE
    requires Small(chunks)
    ensures |Emit(s, chunks)| + 4 <= SOCKBUF_SIZE <==> |s| + |Flatten(chunks)| + 4 <= SOCKBUF_SIZE
    decreases |chunks|
  {
    if chunks != [] {
      var s' := Put(s, chunks[0]);
      EmitSizeExact(s', chunks[1..]);
      EmitFits(s', chunks[1..]);
    }
  }

  /** Single-byte writes fill the buffer to the brim and drop the rest. */
  lemma {:induction false} EmitStr(s: seq<Byte>, v: Str)
    requires |s| <= SOCKBUF_SIZE
    ensures var all := s + v + [0];
            Emit(s, StrChunks(v)) == all[..if |all| < SOCKBUF_SIZE then |all| else SOCKBUF_SIZE]
    decreases |v|
  {
    var c := StrChunks(v);
    if v == [] {
      assert c == [[0]];
      assert c[1..] == [];
      assert Emit(s, c) == Emit(Put(s, [0]), []);
      assert s + v == s;
    } else {
      assert c[0] == [v[0]];
      assert c[1..] == StrChunks(v[1..]);
      var s' := Put(s, [v[0]]);
      EmitStr(s', v[1..]);
      if |s| < SOCKBUF_SIZE {
        assert s' + v[1..] == s + v;
      }
    }
  }

  // ---- Reading: `m` is the whole buffer, `p` the read pointer ----

  function ReadU16(m: seq<Byte>, p: nat): Read<U16>
    requires |m| == SOCKBUF_SIZE
  {
    if p + 2 > SOCKBUF_SIZE then Fault else Value(U16Of(m[p..p + 2]), p + 2)
  }

  function ReadU32(m: seq<Byte>, p: nat): Read<U32>
    requires |m| == SOCKBUF_SIZE
  {
    if p + 4 > SOCKBUF_SIZE then Fault else Value(U32Of(m[p..p + 4]), p + 4)
  }

  /** The length of the string at `p`: the first character is taken without looking at it. */
  function Scan(m: seq<Byte>, p: nat, from: nat): (n: nat)
    requires |m| == SOCKBUF_SIZE && p < SOCKBUF_SIZE && 1 <= from && p + from <= SOCKBUF_SIZE
    ensures from <= n && p + n <= SOCKBUF_SIZE
    ensures forall j :: p + from <= j < p + n ==> m[j] != 0
    ensures p + n < SOCKBUF_SIZE ==> m[p + n] == 0
    decreases SOCKBUF_SIZE - p - from
  {
    if p + from < SOCKBUF_SIZE && m[p + from] != 0 then Scan(m, p, from + 1) else from
  }

  /** `operator>>` for a string. The test for NUL comes before the test for the end of the
      buffer, so a scan that finds no NUL looks at the byte behind the buffer. */
  function ReadStr(m: seq<Byte>, p: nat): Read<Str>
    requires |m| == SOCKBUF_SIZE
  {
    if p >= SOCKBUF_SIZE then Fault
    else
      var n := Scan(m, p, 1);
      if p + n == SOCKBUF_SIZE then Fault else Value(m[p..p + n], p + n + 1)
  }

  /** The reader delivers what lies up to the first NUL behind the first character and stops
      behind that NUL; it leaves the buffer exactly when there is none. */
  lemma {:induction false} ReadStrExactly(m: seq<Byte>, p: nat)
    requires |m| == SOCKBUF_SIZE
    ensures !ReadStr(m, p).Skipped?
    ensures ReadStr(m, p).Fault? <==> forall j :: p < j < SOCKBUF_SIZE ==> m[j] != 0
    ensures forall e :: p < e < SOCKBUF_SIZE && m[e] == 0 && (forall j :: p < j < e ==> m[j] != 0) ==>
              ReadStr(m, p) == Value(m[p..e], e + 1)
  {
    if p < SOCKBUF_SIZE {
      var n := Scan(m, p, 1);
      assert forall j :: p < j < p + n ==> m[j] != 0;
    }
  }

  /** The strings that survive a write and a read. */
  predicate StrOk(v: Str) {
    v != [] && forall k :: 1 <= k < |v| ==> v[k] != 0
  }

  /** Reading undoes writing, whatever follows, for exactly the strings of `StrOk`:
      the empty string and an inner NUL are the failures. */
  lemma StrRoundTrip(m: seq<Byte>, p: nat, v: Str)
    requires |m| == SOCKBUF_SIZE && p + |v| + 1 <= SOCKBUF_SIZE
    requires m[p..p + |v| + 1] == v + [0]
    ensures StrOk(v) <==> ReadStr(m, p) == Value(v, p + |v| + 1)
    ensures var r := ReadStr(m, p); r.Value? && r.value == v ==> StrOk(v)
  {
    var w := m[p..p + |v| + 1];
    assert forall j :: p <= j < p + |v| ==> m[j] == w[j - p] == v[j - p];
    assert m[p + |v|] == w[|v|] == 0;
    var n := Scan(m, p, 1);
    if StrOk(v) {
      assert forall j :: p + 1 <= j < p + |v| ==> m[j] == v[j - p] != 0;
      assert n == |v|;
      assert m[p..p + n] == v;
    }
    if ReadStr(m, p).Value? && ReadStr(m, p).value == v {
      assert n == |v|;
      assert forall k :: 1 <= k < |v| ==> v[k] == m[p + k];
    }
  }

  lemma U16At(m: seq<Byte>, p: nat, v: U16)
    requires |m| == SOCKBUF_SIZE && p + 2 <= SOCKBUF_SIZE && m[p..p + 2] == U16Bytes(v)
    ensures ReadU16(m, p) == Value(v, p + 2)
  {
    U16RoundTrip(v);
  }

  lemma U32At(m: seq<Byte>, p: nat, v: U32)
    requires |m| == SOCKBUF_SIZE && p + 4 <= SOCKBUF_SIZE && m[p..p + 4] == U32Bytes(v)
    ensures ReadU32(m, p) == Value(v, p + 4)
  {
    U32RoundTrip(v);
  }

  /** Buffer contents after loading `data` into a zeroed buffer. */
  function Padded(data: seq<Byte>): (m: seq<Byte>)
    requires |data| <= SOCKBUF_SIZE
    ensures |m| == SOCKBUF_SIZE && m[..|data|] == data
  {
    data + Zeros(SOCKBUF_SIZE - |data|)
  }

  class Stream {
    var offset: nat
    var readPtr: nat
    const stream: array<Byte>

    ghost predicate Valid()
      reads this
    {
      stream.Length == SOCKBUF_SIZE && offset <= SOCKBUF_SIZE
    }

    ghost function Written(): seq<Byte>
      reads this, stream
      requires Valid()
    {
      stream[..offset]
    }

    constructor ()
      ensures Valid() && fresh(stream)
      ensures Written() == [] && readPtr == 0 && stream[..] == Zeros(SOCKBUF_SIZE)
    {
      offset, readPtr := 0, 0;
      stream := new Byte[SOCKBUF_SIZE](_ => 0);
      new;
      assert stream[..] == Zeros(SOCKBUF_SIZE);
    }

    /** `Stream(UCHAR*, size_t)`. */
    constructor FromBytes(data: seq<Byte>)
      requires |data| <= SOCKBUF_SIZE
      ensures Valid() && fresh(stream)
      ensures stream[..] == Padded(data) && offset == |data| && readPtr == 0
    {
      offset, readPtr := |data|, 0;
      stream := new Byte[SOCKBUF_SIZE](i requires 0 <= i => if i < |data| then data[i] else 0);
      new;
      assert stream[..] == Padded(data);
    }

    /** `operator<<` for a fixed-width value with the given bytes. */
    method Write(bytes: seq<Byte>)
      requires Valid()
      modifies this`offset, stream
      ensures Valid() && Written() == Put(old(Written()), bytes)
      ensures Written() == if |old(Written())| + |bytes| <= SOCKBUF_SIZE then old(Written()) + bytes else old(Written())
    {
      if offset + |bytes| > SOCKBUF_SIZE {
        return;
      }
      var base := offset;
      forall i | 0 <= i < |bytes| {
        stream[base + i] := bytes[i];
      }
      offset := offset + |bytes|;
      assert Written() == old(Written()) + bytes;
    }

    /** `operator<<` for a string. */
    method WriteStr(v: Str)
      requires Valid()
      modifies this`offset, stream
      ensures Valid() && Written() == Emit(old(Written()), StrChunks(v))
    {
      ghost var start := Written();
      ghost var c := StrChunks(v);
      var i := 0;
      assert c[..0] == [];
      while i < |v|
        invariant 0 <= i <= |v| && Valid()
        invariant Written() == Emit(start, c[..i])
      {
        Write([v[i]]);
        EmitOne(start, c, i);
        i := i + 1;
      }
      Write([0]);
      EmitOne(start, c, i);
      assert c[..i + 1] == c;
    }

    /** `operator>>` for a `uint16_t`. */
    method NextU16() returns (r: Read<U16>)
      requires Valid()
      modifies this`readPtr
      ensures r == if offset + 2 > SOCKBUF_SIZE then Skipped else ReadU16(stream[..], old(readPtr))
      ensures readPtr == if r.Value? then r.pos else old(readPtr)
    {
      if offset + 2 > SOCKBUF_SIZE {
        return Skipped;
      }
      if readPtr + 2 > SOCKBUF_SIZE {
        return Fault;
      }
      assert stream[..][readPtr..readPtr + 2] == stream[readPtr..readPtr + 2];
      var v := U16Of(stream[readPtr..readPtr + 2]);
      readPtr := readPtr + 2;
      r := Value(v, readPtr);
    }

    /** `operator>>` for a `uint32_t`. */
    method NextU32() returns (r: Read<U32>)
      requires Valid()
      modifies this`readPtr
      ensures r == if offset + 4 > SOCKBUF_SIZE then Skipped else ReadU32(stream[..], old(readPtr))
      ensures readPtr == if r.Value? then r.pos else old(readPtr)
    {
      if offset + 4 > SOCKBUF_SIZE {
        return Skipped;
      }
      if readPtr + 4 > SOCKBUF_SIZE {
        return Fault;
      }
      assert stream[..][readPtr..readPtr + 4] == stream[readPtr..readPtr + 4];
      var v := U32Of(stream[readPtr..readPtr + 4]);
      readPtr := readPtr + 4;
      r := Value(v, readPtr);
    }

    /** `operator>>` for a string: look for a terminator from the second character on. The
        original looks at the byte behind the buffer before it stops there. */
    method NextStr() returns (r: Read<Str>)
      requires Valid()
      modifies this`readPtr
      ensures r == ReadStr(stream[..], old(readPtr))
      ensures readPtr == if r.Value? then r.pos else old(readPtr)
    {
      if readPtr >= SOCKBUF_SIZE {
        return Fault;
      }
      var length := 1;
      while readPtr + length < SOCKBUF_SIZE && stream[readPtr + length] != 0
        invariant 1 <= length && readPtr + length <= SOCKBUF_SIZE
        invariant Scan(stream[..], readPtr, 1) == Scan(stream[..], readPtr, length)
        decreases SOCKBUF_SIZE - readPtr - length
      {
        length := length + 1;
      }
      if readPtr + length == SOCKBUF_SIZE {
        return Fault;
      }
      assert stream[..][readPtr..readPtr + length] == stream[readPtr..readPtr + length];
      var v := stream[readPtr..readPtr + length];
      readPtr := readPtr + length + 1;
      r := Value(v, readPtr);
    }
  }

  lemma EmitOne(s: seq<Byte>, c: seq<seq<Byte>>, i: nat)
    requires i < |c|
    ensures Emit(s, c[..i + 1]) == Put(Emit(s, c[..i]), c[i])
  {
    assert c[..i + 1] == c[..i] + [c[i]];
    var last := [c[i]];
    EmitConcat(s, c[..i], last);
    assert last[1..] == [];
  }
}
