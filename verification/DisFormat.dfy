// The byte-level format of .dis files: operands, words and names as the compiler writes them
// (limbo/compiler/dis.b) and as the loader reads them through its buffered reader
// (src/vm/module_reader.cpp, src/include/buffered_reader.hpp).
module DisFormat {

  type Byte = b: int | 0 <= b < 256
  type Bytes = seq<Byte>

  datatype Option<T> = None | Some(value: T)

  /** What parsing the start of some bytes gives: a value and the bytes after it. */
  datatype Parse<+T> = Ok(value: T, rest: Bytes) | Fail

  predicate Int32(x: int) { -0x8000_0000 <= x < 0x8000_0000 }

  /** The operands that the format can hold. */
  predicate IsOperand(x: int) { -0x2000_0000 <= x < 0x2000_0000 }

  // ---- writing ----

  /** One byte for small values, two, or four; the top two bits of the first byte tell which. */
  function EncOperand(v: int): (b: Bytes)
    requires IsOperand(v)
    ensures 1 <= |b| <= 4
  {
    if -64 <= v <= 63 then [v % 128]
    else if -8192 <= v <= 8191 then [v / 0x100 % 64 + 0x80, v % 0x100]
    else [v / 0x100_0000 % 64 + 0xC0, v / 0x1_0000 % 0x100, v / 0x100 % 0x100, v % 0x100]
  }

  /** What is written for a constant; one that does not fit is fatal, and nothing is written. */
  function EncConst(v: int): (b: Bytes)
    ensures |b| <= 4
  {
    if IsOperand(v) then EncOperand(v) else []
  }

  function EncWord(w: int): (b: Bytes)
    ensures |b| == 4
  {
    [w / 0x100_0000 % 0x100, w / 0x1_0000 % 0x100, w / 0x100 % 0x100, w % 0x100]
  }

  function EncName(name: Bytes): Bytes { name + [0] }

  function EncMany<T>(xs: seq<T>, enc: T -> Bytes): Bytes {
    if xs == [] then [] else enc(xs[0]) + EncMany(xs[1..], enc)
  }

  // ---- parsing ----

  function ParseByte(s: Bytes): Parse<Byte> { if s == [] then Fail else Ok(s[0], s[1..]) }

  function ParseBytes(s: Bytes, n: nat): Parse<Bytes> { if |s| < n then Fail else Ok(s[..n], s[n..]) }

  /** A six-bit field, sign extended. */
  function Signed6(b: Byte): int { var low: int := b % 64; if low >= 32 then low - 64 else low }

  function At(s: Bytes, i: nat): int requires i < |s| { s[i] }

  /** No encoding, canonical or not, gives anything outside the range that can be written. */
  function ParseOperand(s: Bytes): (r: Parse<int>)
    ensures r.Ok? ==> |r.rest| < |s| && IsOperand(r.value)
  {
    if s == [] then Fail
    else if s[0] < 0x40 then Ok(s[0], s[1..])
    else if s[0] < 0x80 then Ok(At(s, 0) - 0x80, s[1..])
    else if s[0] < 0xC0 then
      if |s| < 2 then Fail else Ok(Signed6(s[0]) * 0x100 + At(s, 1), s[2..])
    else
      if |s| < 4 then Fail
      else Ok(Signed6(s[0]) * 0x100_0000 + At(s, 1) * 0x1_0000 + At(s, 2) * 0x100 + At(s, 3), s[4..])
  }

  function Signed8(b: Byte): int { var i: int := b; if i >= 128 then i - 256 else i }

  function ParseWord(s: Bytes): (r: Parse<int>)
    ensures r.Ok? ==> |r.rest| == |s| - 4
  {
    if |s| < 4 then Fail
    else Ok(Signed8(s[0]) * 0x100_0000 + At(s, 1) * 0x1_0000 + At(s, 2) * 0x100 + At(s, 3), s[4..])
  }

  /** Everything up to the first zero byte. */
  function ParseName(s: Bytes): Parse<Bytes> {
    if s == [] then Fail
    else if s[0] == 0 then Ok([], s[1..])
    else match ParseName(s[1..]) case Ok(name, rest) => Ok([s[0]] + name, rest) case Fail => Fail
  }

  /** A count cannot be negative. */
  function ParseMany<T>(n: int, p: Bytes -> Parse<T>, s: Bytes): Parse<seq<T>>
    decreases if n > 0 then n else 0
  {
    if n < 0 then Fail
    else if n == 0 then Ok([], s)
    else match p(s)
      case Fail => Fail
      case Ok(x, t) =>
        match ParseMany(n - 1, p, t)
        case Ok(xs, rest) => Ok([x] + xs, rest)
        case Fail => Fail
  }

  // ---- reading undoes writing ----

  lemma DigitsOf(v: int)
    ensures var q := v / 0x100_0000;
            v == q * 0x100_0000 + v / 0x1_0000 % 0x100 * 0x1_0000 + v / 0x100 % 0x100 * 0x100 + v % 0x100
  {
    assert v / 0x1_0000 == v / 0x100 / 0x100 && v / 0x100_0000 == v / 0x100 / 0x100 / 0x100;
  }

  lemma OperandRoundTrip(v: int, rest: Bytes)
    requires IsOperand(v)
    ensures ParseOperand(EncOperand(v) + rest) == Ok(v, rest)
  {
    var s := EncOperand(v) + rest;
    assert s[|EncOperand(v)|..] == rest;
    if -64 <= v <= 63 {
    } else if -8192 <= v <= 8191 {
      Low6(v / 0x100);
    } else {
      DigitsOf(v);
      Low6(v / 0x100_0000);
    }
  }

  /** The bytes of the format at the borders of its three lengths. */
  lemma OperandBytes()
    ensures EncOperand(0) == [0x00] && EncOperand(63) == [0x3F] && EncOperand(-1) == [0x7F] && EncOperand(-64) == [0x40]
    ensures EncOperand(64) == [0x80, 0x40] && EncOperand(8191) == [0x9F, 0xFF]
    ensures EncOperand(-65) == [0xBF, 0xBF] && EncOperand(-8192) == [0xA0, 0x00]
    ensures EncOperand(8192) == [0xC0, 0x00, 0x20, 0x00] && EncOperand(0x1FFF_FFFF) == [0xDF, 0xFF, 0xFF, 0xFF]
    ensures EncOperand(-8193) == [0xFF, 0xFF, 0xDF, 0xFF] && EncOperand(-0x2000_0000) == [0xE0, 0x00, 0x00, 0x00]
    ensures EncWord(0x1234_5678) == [0x12, 0x34, 0x56, 0x78] && EncWord(-2) == [0xFF, 0xFF, 0xFF, 0xFE]
  {
  }

  /** A quotient between -32 and 31 survives in six bits. */
  lemma Low6(q: int)
    requires -32 <= q < 32
    ensures q % 64 + 0x80 < 0xC0 && Signed6(q % 64 + 0x80) == q && q % 64 + 0xC0 < 0x100 && Signed6(q % 64 + 0xC0) == q
  {
  }

  lemma WordRoundTrip(w: int, rest: Bytes)
    requires Int32(w)
    ensures ParseWord(EncWord(w) + rest) == Ok(w, rest)
  {
    assert (EncWord(w) + rest)[4..] == rest;
    DigitsOf(w);
    assert -128 <= w / 0x100_0000 < 128;
  }

  lemma {:induction false} NameRoundTrip(name: Bytes, rest: Bytes)
    requires 0 !in name
    ensures ParseName(EncName(name) + rest) == Ok(name, rest)
  {
    var s := EncName(name) + rest;
    if name == [] {
      assert s[1..] == rest;
    } else {
      assert s[1..] == EncName(name[1..]) + rest;
      NameRoundTrip(name[1..], rest);
      assert [name[0]] + name[1..] == name;
    }
  }

  lemma BytesRoundTrip(b: Bytes, rest: Bytes)
    ensures ParseBytes(b + rest, |b|) == Ok(b, rest)
  {
  }

  /** Written and read back, x gives f(x), whatever follows it. */
  ghost predicate ReadsBack<T(!new), U(!new)>(x: T, enc: T -> Bytes, p: Bytes -> Parse<U>, f: T -> U) {
    forall r: Bytes :: p(enc(x) + r) == Ok(f(x), r)
  }

  /** If the elements are read back, so is a list of them. */
  lemma {:induction false} ManyRoundTrip<T(!new), U(!new)>(xs: seq<T>, enc: T -> Bytes, p: Bytes -> Parse<U>, f: T -> U,
                                                           rest: Bytes)
    requires forall i :: 0 <= i < |xs| ==> ReadsBack(xs[i], enc, p, f)
    ensures ParseMany(|xs|, p, EncMany(xs, enc) + rest) == Ok(Mapped(xs, f), rest)
  {
    if xs != [] {
      var after := EncMany(xs[1..], enc) + rest;
      assert EncMany(xs, enc) + rest == enc(xs[0]) + after;
      assert ReadsBack(xs[0], enc, p, f);
      ManyRoundTrip(xs[1..], enc, p, f, rest);
      assert [f(xs[0])] + Mapped(xs[1..], f) == Mapped(xs, f);
    } else {
      assert EncMany(xs, enc) + rest == rest;
    }
  }

  function Mapped<T, U>(xs: seq<T>, f: T -> U): (ys: seq<U>)
    ensures |ys| == |xs| && forall i :: 0 <= i < |xs| ==> ys[i] == f(xs[i])
  {
    seq(|xs|, i requires 0 <= i < |xs| => f(xs[i]))
  }

  lemma {:induction false} EncManyAppend<T>(xs: seq<T>, x: T, enc: T -> Bytes)
    ensures EncMany(xs + [x], enc) == EncMany(xs, enc) + enc(x)
  {
    if xs == [] {
      assert xs + [x] == [x] && [x][1..] == [];
    } else {
      assert (xs + [x])[1..] == xs[1..] + [x];
      EncManyAppend(xs[1..], x, enc);
    }
  }

  /** Reading n elements one after the other: what is left to read after the first ones. */
  lemma {:induction false} ManyStep<T>(n: int, p: Bytes -> Parse<T>, done: seq<T>, s: Bytes, t: Bytes)
    requires 0 <= |done| < n
    requires ParseMany(n, p, s) == Continued(done, ParseMany(n - |done|, p, t))
    ensures match p(t)
            case Fail => ParseMany(n, p, s) == Fail
            case Ok(x, u) => ParseMany(n, p, s) == Continued(done + [x], ParseMany(n - |done| - 1, p, u))
  {
    if p(t).Ok? && ParseMany(n - |done| - 1, p, p(t).rest).Ok? {
      var xs := ParseMany(n - |done| - 1, p, p(t).rest).value;
      assert done + ([p(t).value] + xs) == done + [p(t).value] + xs;
    }
  }

  function Continued<T>(done: seq<T>, r: Parse<seq<T>>): Parse<seq<T>> {
    if r.Ok? then Ok(done + r.value, r.rest) else Fail
  }

  lemma NothingContinued<T>(r: Parse<seq<T>>)
    ensures Continued([], r) == r
  {
    if r.Ok? { assert [] + r.value == r.value; }
  }

  // ---- the buffered reader ----

  class BufferedReader {
    const buffer: array<Byte>
    var current_index: nat
    var current_size: nat
    var stream: Bytes           // what the stream still holds
    var failed: bool            // the stream came to its end during a read

    ghost predicate Valid()
      reads this, buffer
    {
      current_index <= current_size <= buffer.Length && 0 < buffer.Length && (failed ==> stream == [])
    }

    /** Everything still to be read, whatever part of it is in the buffer. */
    ghost function Remaining(): Bytes
      requires Valid()
      reads this, buffer
    {
      buffer[current_index..current_size] + stream
    }

    constructor (stream: Bytes, capacity: nat)
      requires capacity > 0
      ensures Valid() && Remaining() == stream && fresh(buffer)
    {
      buffer := new Byte[capacity];
      current_index, current_size := 0, 0;
      this.stream := stream;
      failed := false;
    }

    /** Refill an empty buffer; the number of bytes in it. */
    method CheckBufferContent() returns (n: nat)
      requires Valid()
      modifies this, buffer
      ensures Valid() && Remaining() == old(Remaining())
      ensures n == current_size - current_index && (n == 0 <==> Remaining() == [])
    {
      if current_size <= current_index {
        current_index, current_size := 0, 0;
        if failed { return 0; }
        var count := if |stream| < buffer.Length then |stream| else buffer.Length;
        failed := |stream| < buffer.Length;
        ghost var all := stream;
        Fill(count);
        stream := stream[count..];
        current_size := count;
        assert buffer[0..count] + stream == all;
      }
      n := current_size - current_index;
    }

    method Fill(count: nat)
      requires count <= |stream| && count <= buffer.Length
      modifies buffer
      ensures buffer[0..count] == stream[..count]
    {
      var i := 0;
      while i < count
        invariant i <= count && buffer[0..i] == stream[..i]
      {
        buffer[i] := stream[i];
        i := i + 1;
      }
    }

    /** The memcpy out of the buffer. */
    method Take(count: nat) returns (b: Bytes)
      requires Valid() && count <= current_size - current_index
      modifies this`current_index
      ensures Valid() && |b| == count && old(Remaining()) == b + Remaining()
      ensures current_index == old(current_index) + count
    {
      b := buffer[current_index..current_index + count];
      assert buffer[current_index..current_size] == b + buffer[current_index + count..current_size];
      current_index := current_index + count;
    }

    /** The next n bytes, or none if there are fewer. */
    method GetNextBytes(n: nat) returns (count: nat, b: Bytes)
      requires Valid()
      modifies this, buffer
      ensures Valid() && (count == 0 || count == n)
      ensures old(|Remaining()|) < n ==> count == 0
      ensures old(|Remaining()|) >= n ==> count == n && |b| == n && old(Remaining()) == b + Remaining()
    {
      b := [];
      if n == 0 { return 0, b; }
      count := 0;
      ghost var all := Remaining();
      while true
        invariant Valid() && count == |b| < n && all == b + Remaining()
        decreases n - count
      {
        var amount := CheckBufferContent();
        if amount == 0 { return 0, b; }
        ghost var before := b;
        ghost var was := Remaining();
        if n - count <= amount {
          var last := Take(n - count);
          b := b + last;
          Regroup(before, last, Remaining());
          return n, b;
        }
        var taken := Take(amount);
        b := b + taken;
        Regroup(before, taken, Remaining());
        count := count + amount;
      }
    }

    /** What is in the buffer, up to a zero byte. */
    method TakeUntilZero() returns (found: bool, b: Bytes)
      requires Valid()
      modifies this`current_index
      ensures Valid() && (!found ==> current_index == current_size)
      ensures |Remaining()| <= |old(Remaining())| && (old(current_index) < current_size ==> |Remaining()| < |old(Remaining())|)
      ensures if found then ParseName(old(Remaining())) == Ok(b, Remaining())
              else ParseName(old(Remaining())) == Prefixed(b, ParseName(Remaining()))
    {
      b := [];
      ghost var all := Remaining();
      NothingPrefixed(ParseName(all));
      while current_index < current_size
        invariant Valid() && old(current_index) <= current_index
        invariant |Remaining()| == |all| - (current_index - old(current_index))
        invariant ParseName(all) == Prefixed(b, ParseName(Remaining()))
        decreases current_size - current_index
      {
        var c := Take(1);
        PrefixedStep(b, c[0], Remaining());
        assert c == [c[0]];
        if c[0] == 0 { return true, b; }
        b := b + c;
      }
      found := false;
    }

    /** Bytes up to a zero byte, which is consumed but not returned. */
    method GetBytesUntilZero() returns (ok: bool, b: Bytes)
      requires Valid()
      modifies this, buffer
      ensures Valid()
      ensures match ParseName(old(Remaining()))
              case Ok(name, rest) => ok && b == name && Remaining() == rest
              case Fail => !ok
    {
      b := [];
      ghost var all := Remaining();
      NothingPrefixed(ParseName(all));
      var amount := CheckBufferContent();
      while amount != 0
        invariant Valid() && amount == current_size - current_index && (amount == 0 <==> Remaining() == [])
        invariant ParseName(all) == Prefixed(b, ParseName(Remaining()))
        decreases |Remaining()|
      {
        ghost var was := ParseName(Remaining());
        var found, part := TakeUntilZero();
        PrefixedTwice(b, part, ParseName(Remaining()));
        b := b + part;
        if found { return true, b; }
        amount := CheckBufferContent();
      }
      ok := false;
    }

    method GetNextByte() returns (ok: bool, b: Byte)
      requires Valid()
      modifies this, buffer
      ensures Valid()
      ensures match ParseByte(old(Remaining()))
              case Ok(x, rest) => ok && b == x && Remaining() == rest
              case Fail => !ok
    {
      var amount := CheckBufferContent();
      if amount == 0 { return false, 0; }
      b := buffer[current_index];
      ghost var was := Remaining();
      current_index := current_index + 1;
      assert was == [b] + Remaining();
      ok := true;
    }
  }

  /** read_next_operand: the first byte tells how many more to get. */
  method ReadNextOperand(reader: BufferedReader) returns (ok: bool, result: int)
    requires reader.Valid()
    modifies reader, reader.buffer
    ensures reader.Valid()
    ensures match ParseOperand(old(reader.Remaining()))
            case Ok(v, rest) => ok && result == v && reader.Remaining() == rest
            case Fail => !ok
    ensures ok ==> IsOperand(result)
  {
    ghost var all := reader.Remaining();
    var count, b := reader.GetNextBytes(1);
    if count == 0 { return false, 0; }
    ghost var s := reader.Remaining();
    assert all == b + s && all[1..] == s;
    if b[0] < 0x40 { return true, b[0]; }
    if b[0] < 0x80 { return true, At(b, 0) - 0x80; }
    if b[0] < 0xC0 {
      var n, c := reader.GetNextBytes(1);
      if n == 0 { return false, 0; }
      assert s == c + reader.Remaining() && all[2..] == reader.Remaining();
      return true, Signed6(b[0]) * 0x100 + At(c, 0);
    }
    var n, c := reader.GetNextBytes(3);
    if n == 0 { return false, 0; }
    assert s == c + reader.Remaining() && all[4..] == reader.Remaining();
    assert all[1] == c[0] && all[2] == c[1] && all[3] == c[2];
    return true, Signed6(b[0]) * 0x100_0000 + At(c, 0) * 0x1_0000 + At(c, 1) * 0x100 + At(c, 2);
  }

  /** read_next_word. */
  method ReadNextWord(reader: BufferedReader) returns (ok: bool, result: int)
    requires reader.Valid()
    modifies reader, reader.buffer
    ensures reader.Valid()
    ensures match ParseWord(old(reader.Remaining()))
            case Ok(v, rest) => ok && result == v && reader.Remaining() == rest
            case Fail => !ok
  {
    ghost var all := reader.Remaining();
    var count, b := reader.GetNextBytes(4);
    if count != 4 { return false, 0; }
    assert all == b + reader.Remaining() && all[4..] == reader.Remaining();
    return true, Signed8(b[0]) * 0x100_0000 + At(b, 1) * 0x1_0000 + At(b, 2) * 0x100 + At(b, 3);
  }

  function Prefixed(b: Bytes, r: Parse<Bytes>): Parse<Bytes> {
    if r.Ok? then Ok(b + r.value, r.rest) else Fail
  }

  lemma Regroup(a: Bytes, b: Bytes, c: Bytes)
    ensures a + (b + c) == a + b + c
  {
  }

  lemma NothingPrefixed(r: Parse<Bytes>)
    ensures Prefixed([], r) == r
  {
    if r.Ok? { assert [] + r.value == r.value; }
  }

  lemma PrefixedTwice(b: Bytes, c: Bytes, r: Parse<Bytes>)
    ensures Prefixed(b, Prefixed(c, r)) == Prefixed(b + c, r)
  {
    if r.Ok? { assert b + (c + r.value) == b + c + r.value; }
  }

  lemma PrefixedStep(b: Bytes, c: Byte, s: Bytes)
    ensures Prefixed(b, ParseName([c] + s)) == if c == 0 then Ok(b, s) else Prefixed(b + [c], ParseName(s))
  {
    assert ([c] + s)[1..] == s;
    if c == 0 {
      assert b + [] == b;
    } else {
      PrefixedTwice(b, [c], ParseName(s));
    }
  }
}
