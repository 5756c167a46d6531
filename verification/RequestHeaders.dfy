/**
Request headers on their way to the engine: one packed batch, or one by one.
 */
module RequestHeaders {
  import opened HeaderCodec
  import opened HeaderList
  import opened HeaderEngine

  /** A header of the list; nginx deletes one by clearing its hash. */
  datatype Elt = Elt(live: bool, key: octets, value: octets)

  // ---------- the walk ----------

  function Live(es: seq<Elt>): seq<Pair> {
    if es == [] then []
    else
      var n := |es| - 1;
      if es[n].live then Live(es[..n]) + [Pair(es[n].key, es[n].value)] else Live(es[..n])
  }

  lemma LiveSnoc(es: seq<Elt>, e: Elt)
    ensures Live(es + [e]) == Live(es) + if e.live then [Pair(e.key, e.value)] else []
  {
    assert (es + [e])[..|es|] == es;
  }

  /** The live headers, and nothing else, are what is to be submitted. */
  lemma {:induction false} LiveExactly(es: seq<Elt>, p: Pair)
    ensures p in Live(es) <==> exists e :: e in es && e.live && p == Pair(e.key, e.value)
  {
    if es != [] {
      var n := |es| - 1;
      LiveExactly(es[..n], p);
      assert es == es[..n] + [es[n]];
    }
  }

  lemma {:induction false} LivePrefix(es: seq<Elt>, fs: seq<Elt>)
    requires es <= fs
    ensures Live(es) <= Live(fs)
    decreases |fs|
  {
    if |es| < |fs| {
      LivePrefix(es, fs[..|fs| - 1]);
    } else {
      assert es == fs;
    }
  }

  /** The walk goes on to the next element. */
  lemma WalkElement(parts: seq<seq<Elt>>, p: nat, i: nat)
    requires p < |parts| && i < |parts[p]|
    ensures Live(Before(parts, p, i + 1))
         == Live(Before(parts, p, i)) + if parts[p][i].live then [Pair(parts[p][i].key, parts[p][i].value)] else []
    ensures Live(Before(parts, p, i + 1)) <= Live(Flatten(parts))
  {
    LiveSnoc(Before(parts, p, i), parts[p][i]);
    assert Before(parts, p, i) + [parts[p][i]] == Before(parts, p, i + 1);
    FlattenPrefix(parts, p + 1);
    assert parts[..p + 1][..p] == parts[..p];
    LivePrefix(Before(parts, p, i + 1), Flatten(parts));
  }

  method CountLive(parts: seq<seq<Elt>>) returns (n: nat)
    requires IsList(parts)
    ensures n == |Live(Flatten(parts))|
  {
    n := 0;
    var p, i := 0, 0;
    while true
      invariant p < |parts| && i <= |parts[p]| && n == |Live(Before(parts, p, i))|
      decreases |parts| - p, |parts[p]| - i
    {
      var found;
      found, p, i := Seek(parts, p, i);
      if !found { break; }
      WalkElement(parts, p, i);
      if parts[p][i].live { n := n + 1; }
      i := i + 1;
    }
  }

  method Store(pairs: array<Pair>, k: nat, p: Pair)
    requires k < pairs.Length
    modifies pairs
    ensures pairs[..k + 1] == old(pairs[..k]) + [p]
  {
    pairs[k] := p;
  }

  /** Collect the live headers; there is room for exactly `n` of them. */
  method CollectLive(parts: seq<seq<Elt>>, n: nat) returns (pairs: array<Pair>, k: nat)
    requires IsList(parts) && n == |Live(Flatten(parts))|
    ensures fresh(pairs) && k == pairs.Length == n && pairs[..] == Live(Flatten(parts))
  {
    pairs := new Pair[n];
    k := 0;
    var p, i := 0, 0;
    while true
      invariant p < |parts| && i <= |parts[p]| && k == |Live(Before(parts, p, i))| <= n
      invariant pairs[..k] == Live(Before(parts, p, i))
      decreases |parts| - p, |parts[p]| - i
    {
      var found;
      found, p, i := Seek(parts, p, i);
      if !found { break; }
      WalkElement(parts, p, i);
      if parts[p][i].live {
        Store(pairs, k, Pair(parts[p][i].key, parts[p][i].value));
        k := k + 1;
      }
      i := i + 1;
    }
  }

  /** The engine was offered the first `sent` of `all` on top of what it had, and kept those it
      did not refuse. */
  ghost predicate Offered(engine: Engine, all: seq<Pair>, sent: nat, had: seq<Pair>, asked: seq<bool>)
    reads engine
  {
    var offered :=
      && sent <= |all| && (forall j :: 0 <= j < sent ==> IntLengths(all[j]))
      && |engine.answers| == |asked| + sent && asked <= engine.answers
      && engine.headers == had + Kept(all[..sent], engine.answers[|asked|..]);
    offered
  }

  lemma KeptNext(all: seq<Pair>, sent: nat, oks: seq<bool>, ok: bool)
    requires sent < |all| && |oks| == sent
    ensures Kept(all[..sent + 1], oks + [ok]) == Kept(all[..sent], oks) + if ok then [all[sent]] else []
  {
    assert all[..sent + 1][..sent] == all[..sent] && (oks + [ok])[..sent] == oks;
  }

  method AddNext(engine: Engine, e: Elt, ghost all: seq<Pair>, ghost sent: nat, ghost had: seq<Pair>, ghost asked: seq<bool>)
    requires sent < |all| && all[sent] == Pair(e.key, e.value) && IntLengths(all[sent])
    requires Offered(engine, all, sent, had, asked)
    modifies engine`headers, engine`answers
    ensures Offered(engine, all, sent + 1, had, asked)
  {
    ghost var oks := engine.answers[|asked|..];
    var rc := engine.AddOne(e.key, e.value);
    assert engine.answers[|asked|..] == oks + [rc >= 0];
    KeptNext(all, sent, oks, rc >= 0);
  }

  /** One by one. It stops at the first header whose length does not fit an int. */
  method AddEach(engine: Engine, parts: seq<seq<Elt>>) returns (ok: bool, ghost sent: nat)
    requires IsList(parts)
    modifies engine`headers, engine`answers
    ensures Offered(engine, Live(Flatten(parts)), sent, old(engine.headers), old(engine.answers))
    ensures ok ==> sent == |Live(Flatten(parts))|
    ensures !ok ==> sent < |Live(Flatten(parts))| && !IntLengths(Live(Flatten(parts))[sent])
  {
    ghost var all := Live(Flatten(parts));
    sent := 0;
    var p, i := 0, 0;
    while true
      invariant p < |parts| && i <= |parts[p]| && sent == |Live(Before(parts, p, i))|
      invariant Offered(engine, all, sent, old(engine.headers), old(engine.answers))
      decreases |parts| - p, |parts[p]| - i
    {
      var found;
      found, p, i := Seek(parts, p, i);
      if !found { break; }
      WalkElement(parts, p, i);
      if parts[p][i].live {
        var e := parts[p][i];
        assert all[sent] == Pair(e.key, e.value);
        if |e.key| > INT_MAX || |e.value| > INT_MAX { return false, sent; }
        AddNext(engine, e, all, sent, old(engine.headers), old(engine.answers));
        sent := sent + 1;
      }
      i := i + 1;
    }
    ok := true;
  }

  /** The batch path: count, collect, pack, hand over. */
  method AddAll(engine: Engine, pool: Pool, parts: seq<seq<Elt>>) returns (done: bool)
    requires IsList(parts) && Addressable(Live(Flatten(parts)))
    modifies engine`headers, engine`rejected, pool
    ensures engine.headers == if done then old(engine.headers) + Live(Flatten(parts)) else old(engine.headers)
    ensures done <==> Packable(Live(Flatten(parts))) && pool.failures == old(pool.failures)
                      && engine.rejected == old(engine.rejected)
  {
    var n := CountLive(parts);
    if n == 0 {
      assert Live(Flatten(parts)) == [];
      return true;
    }
    done := pool.Alloc();
    if !done { return; }
    var pairs, k := CollectLive(parts, n);
    done := AddPacked(engine, pool, pairs[..]);
  }

  /** What arrives of the live headers: all of them in a batch, or one by one those not refused. */
  ghost function Arrived(live: seq<Pair>, oks: seq<bool>): seq<Pair>
    requires |oks| <= |live|
  {
    if oks == [] then live else Kept(live[..|oks|], oks)
  }

  /** Submit the request headers. Whichever path is taken, and whatever fails on the way, the
      engine ends up with the live headers, in list order, once each, but for those it refused
      when they were offered singly; unless one is longer than an int can say, and then the
      request is refused. */
  method SubmitHeaders(engine: Engine, pool: Pool, parts: seq<seq<Elt>>) returns (status: int, triggered: bool)
    requires IsList(parts) && Addressable(Live(Flatten(parts)))
    modifies engine, pool
    ensures triggered <==> exists p :: p in Live(Flatten(parts)) && !IntLengths(p)
    ensures status == if triggered then 500 else 0
    ensures old(engine.answers) <= engine.answers
    ensures var live, oks := Live(Flatten(parts)), engine.answers[|old(engine.answers)|..];
            && |oks| <= |live| && (oks != [] && !triggered ==> |oks| == |live|)
            && (!triggered ==> engine.headers == old(engine.headers) + Arrived(live, oks))
            && (!triggered ==> (engine.headers == old(engine.headers) + live <==> Misses(oks) == 0))
            && (triggered ==> engine.headers == old(engine.headers) + Kept(live[..|oks|], oks))
  {
    ghost var live, had, asked := Live(Flatten(parts)), engine.headers, engine.answers;
    var done := AddAll(engine, pool, parts);
    if done {
      assert forall p :: p in live ==> Fits(p);
      return 0, false;
    }
    var ok;
    ghost var sent;
    ok, sent := AddEach(engine, parts);
    ghost var oks := engine.answers[|asked|..];
    if !ok {
      assert live[sent] in live;
      return 500, true;
    }
    assert live[..sent] == live;
    KeptAllBehind(had, live, oks);
    return 0, false;
  }
}
