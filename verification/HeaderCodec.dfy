/**
The packed form in which a batch of headers crosses to the engine:
[u16 name length][name][u32 value length][value], big-endian, once per header.
 */
module HeaderCodec {
  newtype u8 = x: int | 0 <= x < 0x100
  newtype size_t = x: int | 0 <= x < 0x1_0000_0000_0000_0000

  const INT_MAX: int := 0x7fff_ffff

  type octets = seq<u8>

  datatype Pair = Pair(name: octets, value: octets)

  datatype Option<T> = None | Some(value: T)

  // ---------- the wire format ----------

  function U16(n: nat): octets {
    [(n / 0x100 % 0x100) as u8, (n % 0x100) as u8]
  }

  function U32(n: nat): octets {
    [(n / 0x100_0000 % 0x100) as u8, (n / 0x1_0000 % 0x100) as u8, (n / 0x100 % 0x100) as u8, (n % 0x100) as u8]
  }

  function EncodePair(p: Pair): octets {
    U16(|p.name|) + p.name + U32(|p.value|) + p.value
  }

  function Flat(parts: seq<octets>): octets {
    if parts == [] then [] else parts[0] + Flat(parts[1..])
  }

  function Pieces(pairs: seq<Pair>): (parts: seq<octets>)
    ensures |parts| == |pairs|
  {
    seq(|pairs|, i requires 0 <= i < |pairs| => EncodePair(pairs[i]))
  }

  function Encode(pairs: seq<Pair>): octets {
    Flat(Pieces(pairs))
  }

  lemma {:induction false} FlatSnoc(parts: seq<octets>, p: octets)
    ensures Flat(parts + [p]) == Flat(parts) + p
  {
    if parts != [] {
      FlatSnoc(parts[1..], p);
      assert (parts + [p])[1..] == parts[1..] + [p];
    }
  }

  lemma EncodeCons(pairs: seq<Pair>)
    requires pairs != []
    ensures Encode(pairs) == EncodePair(pairs[0]) + Encode(pairs[1..])
  {
    assert Pieces(pairs)[1..] == Pieces(pairs[1..]);
  }

  lemma EncodeNext(pairs: seq<Pair>, i: nat)
    requires i < |pairs|
    ensures Encode(pairs[..i + 1]) == Encode(pairs[..i]) + EncodePair(pairs[i])
  {
    FlatSnoc(Pieces(pairs[..i]), Pieces(pairs)[i]);
    assert Pieces(pairs[..i + 1]) == Pieces(pairs[..i]) + [Pieces(pairs)[i]];
  }

  /** The length of the packed form. */
  function Size(pairs: seq<Pair>): nat {
    if pairs == [] then 0 else Size(pairs[..|pairs| - 1]) + PairSize(pairs[|pairs| - 1])
  }

  function PairSize(p: Pair): nat {
    6 + |p.name| + |p.value|
  }

  lemma SizeNext(pairs: seq<Pair>, i: nat)
    requires i < |pairs|
    ensures Size(pairs[..i + 1]) == Size(pairs[..i]) + PairSize(pairs[i])
  {
    assert pairs[..i + 1][..i] == pairs[..i];
  }

  lemma {:induction false} SizeGrows(pairs: seq<Pair>, i: nat)
    requires i <= |pairs|
    ensures Size(pairs[..i]) <= Size(pairs)
    decreases |pairs| - i
  {
    if i < |pairs| {
      SizeNext(pairs, i);
      SizeGrows(pairs, i + 1);
    } else {
      assert pairs[..i] == pairs;
    }
  }

  lemma {:induction false} EncodeLength(pairs: seq<Pair>)
    ensures |Encode(pairs)| == Size(pairs)
  {
    if pairs != [] {
      var n := |pairs| - 1;
      EncodeLength(pairs[..n]);
      EncodeNext(pairs, n);
      assert pairs[..n + 1] == pairs;
    }
  }

  /** The format, spelled out: lengths before strings, name before value, high octets first. */
  lemma Spelled(a: u8, b: u8, c: u8)
    ensures Encode([Pair([a], [b, c])]) == [0, 1, a, 0, 0, 0, 2, b, c]
    ensures U16(0x0102) == [1, 2] && U32(0x0102_0304) == [1, 2, 3, 4]
  {
    var p := Pair([a], [b, c]);
    assert EncodePair(p) == [0, 1, a, 0, 0, 0, 2, b, c];
    assert Pieces([p]) == [EncodePair(p)];
    assert Flat([EncodePair(p)]) == EncodePair(p) + Flat([]);
  }

  // ---------- decoding ----------

  function FromU16(b: octets): nat
    requires |b| == 2
  {
    b[0] as nat * 0x100 + b[1] as nat
  }

  function FromU32(b: octets): nat
    requires |b| == 4
  {
    b[0] as nat * 0x100_0000 + b[1] as nat * 0x1_0000 + b[2] as nat * 0x100 + b[3] as nat
  }

  /** A string behind a big-endian length of `width` octets, and what follows it. */
  function TakeString(b: octets, width: nat): Option<(octets, octets)>
    requires width == 2 || width == 4
  {
    if |b| < width then None
    else
      var n := if width == 2 then FromU16(b[..2]) else FromU32(b[..4]);
      if |b| < width + n then None else Some((b[width..width + n], b[width + n..]))
  }

  function TakePair(b: octets): Option<(Pair, octets)> {
    match TakeString(b, 2)
    case None => None
    case Some((name, rest)) =>
      match TakeString(rest, 4)
      case None => None
      case Some((value, rest')) => Some((Pair(name, value), rest'))
  }

  /** The reader: `count` headers, and nothing after them. */
  function Decode(b: octets, count: nat): Option<seq<Pair>> {
    if count == 0 then (if b == [] then Some([]) else None)
    else
      match TakePair(b)
      case None => None
      case Some((p, rest)) =>
        match Decode(rest, count - 1)
        case None => None
        case Some(ps) => Some([p] + ps)
  }

  // ---------- round trip ----------

  predicate Fits(p: Pair) {
    |p.name| <= 0xffff && |p.value| <= INT_MAX
  }

  lemma Shifted(n: nat, a: nat, b: nat, c: nat)
    requires a == n / 0x100 && b == a / 0x100 && c == b / 0x100
    ensures n / 0x1_0000 == b && n / 0x100_0000 == c
  {
    assert n == a * 0x100 + n % 0x100 && a == b * 0x100 + a % 0x100 && b == c * 0x100 + b % 0x100;
  }

  lemma U32RoundTrip(n: nat)
    requires n <= 0xffff_ffff
    ensures FromU32(U32(n)) == n
  {
    var a := n / 0x100;
    var b := a / 0x100;
    var c := b / 0x100;
    Shifted(n, a, b, c);
    assert n == a * 0x100 + n % 0x100 && a == b * 0x100 + a % 0x100 && b == c * 0x100 + b % 0x100 && c % 0x100 == c;
  }

  lemma TakeName(name: octets, rest: octets)
    requires |name| <= 0xffff
    ensures TakeString(U16(|name|) + name + rest, 2) == Some((name, rest))
  {
    var b := U16(|name|) + name + rest;
    assert b[..2] == U16(|name|);
    assert b[2..2 + |name|] == name && b[2 + |name|..] == rest;
  }

  lemma TakeValue(value: octets, rest: octets)
    requires |value| <= INT_MAX
    ensures TakeString(U32(|value|) + value + rest, 4) == Some((value, rest))
  {
    var b := U32(|value|) + value + rest;
    U32RoundTrip(|value|);
    assert b[..4] == U32(|value|);
    assert b[4..4 + |value|] == value && b[4 + |value|..] == rest;
  }

  lemma TakeFirst(p: Pair, rest: octets)
    requires Fits(p)
    ensures TakePair(EncodePair(p) + rest) == Some((p, rest))
  {
    var tail := U32(|p.value|) + p.value + rest;
    assert EncodePair(p) + rest == U16(|p.name|) + p.name + tail;
    TakeName(p.name, tail);
    TakeValue(p.value, rest);
  }

  /** Reading back what was packed gives the same headers in the same order. */
  lemma {:induction false} RoundTrip(pairs: seq<Pair>)
    requires forall p :: p in pairs ==> Fits(p)
    ensures Decode(Encode(pairs), |pairs|) == Some(pairs)
  {
    if pairs != [] {
      EncodeCons(pairs);
      TakeFirst(pairs[0], Encode(pairs[1..]));
      RoundTrip(pairs[1..]);
      assert pairs == [pairs[0]] + pairs[1..];
    }
  }

  /** Different header lists are packed differently, even when their lengths differ. */
  lemma {:induction false} Injective(a: seq<Pair>, b: seq<Pair>)
    requires forall p :: p in a ==> Fits(p)
    requires forall p :: p in b ==> Fits(p)
    requires Encode(a) == Encode(b)
    ensures a == b
  {
    if a != [] && b != [] {
      EncodeCons(a);
      EncodeCons(b);
      TakeFirst(a[0], Encode(a[1..]));
      TakeFirst(b[0], Encode(b[1..]));
      Injective(a[1..], b[1..]);
      assert a == [a[0]] + a[1..] && b == [b[0]] + b[1..];
    } else if a != [] {
      EncodeCons(a);
    } else if b != [] {
      EncodeCons(b);
    }
  }

  lemma U16Inverse(b: octets)
    requires |b| == 2
    ensures U16(FromU16(b)) == b
  {
  }

  lemma Byte0(q: nat, d: nat)
    requires d < 0x100
    ensures (q * 0x100 + d) % 0x100 == d
  {
  }

  lemma Byte1(q: nat, c: nat, n: nat)
    requires c < 0x100 && 0 <= n - (q * 0x1_0000 + c * 0x100) < 0x100
    ensures n / 0x100 % 0x100 == c
  {
    assert n / 0x100 == q * 0x100 + c;
    Byte0(q, c);
  }

  lemma Byte2(q: nat, c: nat, n: nat)
    requires c < 0x100 && 0 <= n - (q * 0x100_0000 + c * 0x1_0000) < 0x1_0000
    ensures n / 0x1_0000 % 0x100 == c
  {
    assert n / 0x1_0000 == q * 0x100 + c;
    Byte0(q, c);
  }

  lemma U32Inverse(b: octets)
    requires |b| == 4
    ensures U32(FromU32(b)) == b
  {
    var n, x, y, z := FromU32(b), b[0] as nat, b[1] as nat, b[2] as nat;
    Byte0(x * 0x1_0000 + y * 0x100 + z, b[3] as nat);
    Byte1(x * 0x100 + y, z, n);
    Byte2(x, y, n);
    assert n / 0x100_0000 == x;
  }

  lemma TakeStringInverse(b: octets, width: nat)
    requires (width == 2 || width == 4) && TakeString(b, width).Some?
    ensures var (s, rest) := TakeString(b, width).value;
            b == (if width == 2 then U16(|s|) else U32(|s|)) + s + rest
  {
    if width == 2 { U16Inverse(b[..2]); } else { U32Inverse(b[..4]); }
  }

  lemma TakePairInverse(b: octets)
    requires TakePair(b).Some?
    ensures var (p, rest) := TakePair(b).value; b == EncodePair(p) + rest
  {
    var (name, rest) := TakeString(b, 2).value;
    TakeStringInverse(b, 2);
    TakeStringInverse(rest, 4);
    var (value, rest') := TakeString(rest, 4).value;
    assert b == U16(|name|) + name + (U32(|value|) + value + rest');
  }

  /** The reader accepts nothing but packed headers. */
  lemma {:induction false} DecodeInverse(b: octets, count: nat)
    requires Decode(b, count).Some?
    ensures var pairs := Decode(b, count).value; |pairs| == count && Encode(pairs) == b
  {
    if count > 0 {
      TakePairInverse(b);
      var (p, rest) := TakePair(b).value;
      DecodeInverse(rest, count - 1);
      var ps := Decode(rest, count - 1).value;
      EncodeCons([p] + ps);
      assert ([p] + ps)[1..] == ps;
    }
  }

  // ---------- packing ----------

  /** What the packed form can carry: each length in its field, and the whole in an int. */
  ghost predicate Packable(pairs: seq<Pair>) {
    (forall p :: p in pairs ==> Fits(p)) && Size(pairs) <= INT_MAX
  }

  /** Lengths that a size_t can hold. */
  ghost predicate Addressable(pairs: seq<Pair>) {
    forall p :: p in pairs ==> |p.name| <= 0xffff_ffff_ffff_ffff && |p.value| <= 0xffff_ffff_ffff_ffff
  }

  /** The length of the packed form, or a refusal. No guard below wraps around. */
  method Measure(pairs: seq<Pair>) returns (ok: bool, total: size_t)
    requires Addressable(pairs)
    ensures ok <==> Packable(pairs)
    ensures ok ==> total as int == Size(pairs)
  {
    total := 0;
    var limit: size_t := INT_MAX as size_t;
    for i := 0 to |pairs|
      invariant total as int == Size(pairs[..i]) && total <= limit
      invariant forall p :: p in pairs[..i] ==> Fits(p)
    {
      var nlen, vlen := |pairs[i].name| as size_t, |pairs[i].value| as size_t;
      assert pairs[i] in pairs;
      if nlen > 0xffff || vlen > limit { return false, total; }
      SizeNext(pairs, i);
      if total > limit - 6 || nlen > limit - 6 - total || vlen > limit - 6 - total - nlen {
        SizeGrows(pairs, i + 1);
        return false, total;
      }
      total := total + (6 + nlen + vlen);
    }
    assert pairs[..|pairs|] == pairs;
    ok := true;
  }

  /** Write a string at p. */
  method Put(buf: array<u8>, p: nat, data: octets) returns (p': nat)
    requires p + |data| <= buf.Length
    modifies buf
    ensures p' == p + |data|
    ensures buf[..p'] == old(buf[..p]) + data
  {
    for k := 0 to |data|
      invariant buf[..p + k] == old(buf[..p]) + data[..k]
    {
      buf[p + k] := data[k];
    }
    p' := p + |data|;
  }

  method PutPair(buf: array<u8>, p: nat, pair: Pair) returns (p': nat)
    requires p + PairSize(pair) <= buf.Length
    modifies buf
    ensures p' == p + PairSize(pair)
    ensures buf[..p'] == old(buf[..p]) + EncodePair(pair)
  {
    p' := Put(buf, p, U16(|pair.name|));
    p' := Put(buf, p', pair.name);
    p' := Put(buf, p', U32(|pair.value|));
    p' := Put(buf, p', pair.value);
  }

  method Fill(pairs: seq<Pair>, total: nat) returns (buf: array<u8>)
    requires total == Size(pairs)
    ensures fresh(buf) && buf[..] == Encode(pairs)
  {
    buf := new u8[total];
    var p := 0;
    for i := 0 to |pairs|
      invariant p == Size(pairs[..i]) <= buf.Length && buf[..p] == Encode(pairs[..i])
    {
      EncodeNext(pairs, i);
      SizeNext(pairs, i);
      SizeGrows(pairs, i + 1);
      p := PutPair(buf, p, pairs[i]);
    }
    assert pairs[..|pairs|] == pairs;
  }

  /** What a packed buffer holds; the empty batch has none. */
  ghost function Packed(out: array?<u8>): octets
    reads out
  {
    if out == null then [] else out[..]
  }

  /** The request's memory pool, which may run out. */
  class Pool {
    ghost var failures: nat
    constructor ()
      ensures failures == 0
    {
      failures := 0;
    }

    method Alloc() returns (ok: bool)
      modifies this
      ensures failures == old(failures) + if ok then 0 else 1
    {
      ok := *;
      if !ok { failures := failures + 1; }
    }
  }

  /** Pack a batch. Unless memory runs out, it succeeds exactly on what the format can carry. */
  method PackHeaders(pool: Pool, pairs: seq<Pair>) returns (ok: bool, out: array?<u8>, outLen: size_t)
    requires Addressable(pairs)
    modifies pool
    ensures ok ==> Packable(pairs) && Packed(out) == Encode(pairs) && outLen as int == Size(pairs)
    ensures pool.failures == old(pool.failures) + if Packable(pairs) && !ok then 1 else 0
    ensures out != null ==> fresh(out)
  {
    out, outLen := null, 0;
    var total;
    ok, total := Measure(pairs);
    if !ok { return; }
    if total == 0 { return; }
    ok := pool.Alloc();
    if !ok { return; }
    out := Fill(pairs, total as nat);
    outLen := total;
  }
}
