/**
Where headers cross to the engine, which takes lengths as ints.
 */
module HeaderEngine {
  import opened HeaderCodec

  predicate IntLengths(p: Pair) {
    |p.name| <= INT_MAX && |p.value| <= INT_MAX
  }

  /** A length squeezed into a 32-bit int. */
  function Narrow(n: nat): int {
    var m := n % 0x1_0000_0000;
    if m <= INT_MAX then m else m - 0x1_0000_0000
  }

  /** The header the engine makes of one whose lengths were squeezed into ints. */
  function Narrowed(p: Pair): Pair {
    var n, v := Narrow(|p.name|), Narrow(|p.value|);
    Pair(if n < 0 then [] else p.name[..n], if v < 0 then [] else p.value[..v])
  }

  function NarrowedAll(ps: seq<Pair>): (r: seq<Pair>)
    ensures |r| == |ps|
  {
    seq(|ps|, i requires 0 <= i < |ps| => Narrowed(ps[i]))
  }

  /** Squeezing leaves headers alone exactly when their lengths fit an int. */
  lemma NarrowedExact(ps: seq<Pair>)
    ensures NarrowedAll(ps) == ps <==> forall p :: p in ps ==> IntLengths(p)
  {
    forall i | 0 <= i < |ps|
      ensures Narrowed(ps[i]) == ps[i] <==> IntLengths(ps[i])
    {
      NarrowedOne(ps[i]);
    }
    if NarrowedAll(ps) == ps {
      forall i | 0 <= i < |ps| ensures IntLengths(ps[i]) {
        assert NarrowedAll(ps)[i] == Narrowed(ps[i]);
      }
    }
  }

  /** A value of 4 GiB and five bytes arrives as its first five bytes. */
  lemma OverlongIsCut(p: Pair)
    requires |p.name| <= INT_MAX && |p.value| == 0x1_0000_0005
    ensures Narrowed(p) == Pair(p.name, p.value[..5]) != p
  {
    assert p.name[..|p.name|] == p.name;
  }

  lemma NarrowedOne(p: Pair)
    ensures Narrowed(p) == p <==> IntLengths(p)
  {
  }

  /** The headers taken of those offered one by one. */
  function Kept(ps: seq<Pair>, oks: seq<bool>): seq<Pair>
    requires |ps| == |oks|
  {
    if ps == [] then []
    else
      var n := |ps| - 1;
      Kept(ps[..n], oks[..n]) + if oks[n] then [ps[n]] else []
  }

  function Misses(oks: seq<bool>): nat {
    if oks == [] then 0 else Misses(oks[..|oks| - 1]) + if oks[|oks| - 1] then 0 else 1
  }

  lemma {:induction false} KeptSize(ps: seq<Pair>, oks: seq<bool>)
    requires |ps| == |oks|
    ensures |Kept(ps, oks)| + Misses(oks) == |ps|
  {
    if ps != [] { KeptSize(ps[..|ps| - 1], oks[..|ps| - 1]); }
  }

  /** Everything offered has been taken exactly when nothing was refused. */
  lemma {:induction false} KeptAll(ps: seq<Pair>, oks: seq<bool>)
    requires |ps| == |oks|
    ensures Kept(ps, oks) == ps <==> Misses(oks) == 0
  {
    KeptSize(ps, oks);
    if Misses(oks) == 0 && ps != [] {
      var n := |ps| - 1;
      KeptAll(ps[..n], oks[..n]);
      assert ps == ps[..n] + [ps[n]];
    }
  }

  lemma KeptAllBehind(had: seq<Pair>, ps: seq<Pair>, oks: seq<bool>)
    requires |ps| == |oks|
    ensures had + Kept(ps, oks) == had + ps <==> Misses(oks) == 0
  {
    KeptAll(ps, oks);
    assert (had + Kept(ps, oks))[|had|..] == Kept(ps, oks) && (had + ps)[|had|..] == ps;
  }

  /** The engine's view of the headers. It may refuse a batch, of which it then keeps nothing. */
  class Engine {
    ghost var headers: seq<Pair>
    ghost var answers: seq<bool>  // to the headers offered one by one
    ghost var rejected: nat       // batches refused

    constructor ()
      ensures headers == [] && answers == [] && rejected == 0
    {
      headers, answers, rejected := [], [], 0;
    }

    method AddBatch(packed: array?<u8>, len: size_t, count: int) returns (rc: int)
      requires len as int == |Packed(packed)| <= INT_MAX && 0 <= count <= INT_MAX
      modifies this`headers, this`rejected
      ensures rc < 0 ==> headers == old(headers)
      ensures rc >= 0 ==> Decode(Packed(packed), count).Some? && headers == old(headers) + Decode(Packed(packed), count).value
      ensures rejected == old(rejected) + if rc < 0 then 1 else 0
    {
      var bytes := if packed == null then [] else packed[..];
      var taken: bool := *;
      if taken && Decode(bytes, count).Some? {
        headers := headers + Decode(bytes, count).value;
        return 0;
      }
      rejected := rejected + 1;
      return -1;
    }

    method AddOne(key: octets, value: octets) returns (rc: int)
      requires |key| <= INT_MAX && |value| <= INT_MAX
      modifies this`headers, this`answers
      ensures headers == old(headers) + if rc < 0 then [] else [Pair(key, value)]
      ensures answers == old(answers) + [rc >= 0]
    {
      rc := *;
      if rc >= 0 { headers := headers + [Pair(key, value)]; }
      answers := answers + [rc >= 0];
    }

    /** As AddOne, from a caller that does not check that the lengths fit an int. */
    method AddNarrowed(key: octets, value: octets) returns (rc: int)
      modifies this`headers, this`answers
      ensures headers == if rc < 0 then old(headers) else old(headers) + [Narrowed(Pair(key, value))]
      ensures answers == old(answers) + [rc >= 0]
    {
      rc := *;
      if Narrow(|key|) < 0 || Narrow(|value|) < 0 { rc := -1; }
      if rc >= 0 { headers := headers + [Narrowed(Pair(key, value))]; }
      answers := answers + [rc >= 0];
    }
  }

  lemma MissesNext(oks: seq<bool>, ok: bool)
    ensures Misses(oks + [ok]) == Misses(oks) + if ok then 0 else 1
  {
    assert (oks + [ok])[..|oks|] == oks;
  }

  /** Pack a batch and hand it over: all of it arrives, or nothing, and then for a reason. */
  method AddPacked(engine: Engine, pool: Pool, pairs: seq<Pair>) returns (done: bool)
    requires Addressable(pairs)
    modifies engine`headers, engine`rejected, pool
    ensures engine.headers == if done then old(engine.headers) + pairs else old(engine.headers)
    ensures done <==> Packable(pairs) && pool.failures == old(pool.failures) && engine.rejected == old(engine.rejected)
  {
    var ok, packed, len := PackHeaders(pool, pairs);
    if !ok { return false; }
    EncodeLength(pairs);
    CountBound(pairs);
    var rc := engine.AddBatch(packed, len, |pairs|);
    RoundTrip(pairs);
    done := rc >= 0;
  }

  lemma {:induction false} CountBound(pairs: seq<Pair>)
    ensures 6 * |pairs| <= Size(pairs)
  {
    if pairs != [] { CountBound(pairs[..|pairs| - 1]); }
  }
}
