/**
Response headers on their way to the engine: the dedicated fields first, then the list,
in which some of those fields' entries turn up again.
 */
module ResponseHeaders {
  import opened HeaderCodec
  import opened HeaderList
  import opened HeaderEngine

  /** A header of the list. Entries are told apart by identity, not by name. */
  class Entry {
    const live: bool
    const key: octets
    const value: octets
    constructor (live: bool, key: octets, value: octets)
      ensures this.live == live && this.key == key && this.value == value
    {
      this.live, this.key, this.value := live, key, value;
    }
  }

  /** The dedicated fields of the response, and what the other resolvers make up. */
  datatype HeadersOut = HeadersOut(
    server: Entry?, date: Entry?, lastModified: Entry?, lastModifiedTime: int,
    ownServer: octets, now: octets, lastModifiedText: octets,
    entity: seq<Pair>,        // Content-Length and Content-Type, where there are any
    connection: seq<Pair>)    // Keep-Alive, Connection, Transfer-Encoding, Vary likewise

  // "Server", "Date" and "Last-Modified"
  const SERVER: octets := [0x53, 0x65, 0x72, 0x76, 0x65, 0x72]
  const DATE: octets := [0x44, 0x61, 0x74, 0x65]
  const LAST_MODIFIED: octets := [0x4c, 0x61, 0x73, 0x74, 0x2d, 0x4d, 0x6f, 0x64, 0x69, 0x66, 0x69, 0x65, 0x64]

  /** A header submitted, and the list entry it stands for, if any. */
  datatype Submission = Submission(pair: Pair, origin: Entry?)

  ghost function Pairs(subs: seq<Submission>): (ps: seq<Pair>)
    ensures |ps| == |subs|
  {
    seq(|subs|, i requires 0 <= i < |subs| => subs[i].pair)
  }

  ghost function MadeUp(ps: seq<Pair>): seq<Submission> {
    if ps == [] then [] else MadeUp(ps[..|ps| - 1]) + [Submission(ps[|ps| - 1], null)]
  }

  ghost function ServerField(o: HeadersOut): Submission {
    Submission(Pair(SERVER, if o.server == null then o.ownServer else o.server.value), o.server)
  }

  ghost function DateField(o: HeadersOut): Submission {
    Submission(Pair(DATE, if o.date == null then o.now else o.date.value), o.date)
  }

  ghost function LastModifiedField(o: HeadersOut): seq<Submission> {
    if o.lastModifiedTime == -1 then [] else [Submission(Pair(LAST_MODIFIED, o.lastModifiedText), o.lastModified)]
  }

  /** What the first pass submits. */
  ghost function Resolved(o: HeadersOut): seq<Submission> {
    [ServerField(o), DateField(o)] + MadeUp(o.entity) + LastModifiedField(o) + MadeUp(o.connection)
  }

  /** The first pass has already submitted this very entry. */
  predicate Hoisted(o: HeadersOut, e: Entry) {
    e == o.server || e == o.date || (e == o.lastModified && o.lastModifiedTime != -1)
  }

  /** What the second pass submits for one entry. */
  ghost function Listing(e: Entry, o: HeadersOut): seq<Submission> {
    if e.live && !Hoisted(o, e) then [Submission(Pair(e.key, e.value), e)] else []
  }

  /** What the second pass submits. */
  ghost function Listed(es: seq<Entry>, o: HeadersOut): seq<Submission> {
    if es == [] then [] else Listed(es[..|es| - 1], o) + Listing(es[|es| - 1], o)
  }

  lemma ListedNext(parts: seq<seq<Entry>>, p: nat, i: nat, o: HeadersOut)
    requires p < |parts| && i < |parts[p]|
    ensures Listed(Before(parts, p, i + 1), o) == Listed(Before(parts, p, i), o) + Listing(parts[p][i], o)
  {
    var es := Before(parts, p, i + 1);
    assert es[..|es| - 1] == Before(parts, p, i);
  }

  lemma Regroup(a: seq<Submission>, b: seq<Submission>, c: seq<Submission>)
    ensures (a + b) + c == a + (b + c)
  {
  }

  lemma FromNothing(a: seq<Submission>, b: seq<Submission>)
    ensures [] + a + b == a + b
  {
  }

  // ---------- counted once ----------

  /** How many submissions stand for an entry. */
  ghost function Times(subs: seq<Submission>, e: Entry): nat {
    if subs == [] then 0 else Times(subs[..|subs| - 1], e) + if subs[|subs| - 1].origin == e then 1 else 0
  }

  lemma {:induction false} TimesConcat(a: seq<Submission>, b: seq<Submission>, e: Entry)
    ensures Times(a + b, e) == Times(a, e) + Times(b, e)
    decreases |b|
  {
    if b == [] {
      assert a + b == a;
    } else {
      TimesConcat(a, b[..|b| - 1], e);
      assert (a + b)[..|a + b| - 1] == a + b[..|b| - 1];
    }
  }

  lemma {:induction false} TimesMadeUp(ps: seq<Pair>, e: Entry)
    ensures Times(MadeUp(ps), e) == 0
  {
    if ps != [] {
      TimesMadeUp(ps[..|ps| - 1], e);
      assert MadeUp(ps)[..|MadeUp(ps)| - 1] == MadeUp(ps[..|ps| - 1]);
    }
  }

  /** In how many of the fields that the first pass reads the entry is. */
  ghost function Fields(o: HeadersOut, e: Entry): nat {
    (if o.server == e then 1 else 0) + (if o.date == e then 1 else 0)
    + if o.lastModified == e && o.lastModifiedTime != -1 then 1 else 0
  }

  lemma TimesResolved(o: HeadersOut, e: Entry)
    ensures Times(Resolved(o), e) == Fields(o, e)
  {
    var a, b := [ServerField(o)], [DateField(o)];
    TimesMadeUp(o.entity, e);
    TimesMadeUp(o.connection, e);
    TimesConcat(a, b, e);
    assert a + b == [ServerField(o), DateField(o)];
    TimesConcat(a + b, MadeUp(o.entity), e);
    TimesConcat(a + b + MadeUp(o.entity), LastModifiedField(o), e);
    TimesConcat(a + b + MadeUp(o.entity) + LastModifiedField(o), MadeUp(o.connection), e);
    TimesOne(a, e);
    TimesOne(b, e);
    if o.lastModifiedTime != -1 { TimesOne(LastModifiedField(o), e); }
  }

  lemma TimesOne(subs: seq<Submission>, e: Entry)
    requires |subs| == 1
    ensures Times(subs, e) == if subs[0].origin == e then 1 else 0
  {
    assert subs[..0] == [];
  }

  ghost predicate Distinct(es: seq<Entry>) {
    forall i, j :: 0 <= i < j < |es| ==> es[i] != es[j]
  }

  lemma TimesListing(f: Entry, o: HeadersOut, e: Entry)
    ensures Times(Listing(f, o), e) == if f == e && e.live && !Hoisted(o, e) then 1 else 0
  {
    if Listing(f, o) != [] { TimesOne(Listing(f, o), e); }
  }

  lemma DistinctLast(es: seq<Entry>, e: Entry)
    requires Distinct(es) && es != []
    ensures var n := |es| - 1; Distinct(es[..n]) && es[n] !in es[..n] && (e in es <==> e in es[..n] || e == es[n])
  {
    var n := |es| - 1;
    assert es == es[..n] + [es[n]];
  }

  lemma {:induction false} TimesListed(es: seq<Entry>, o: HeadersOut, e: Entry)
    requires Distinct(es)
    ensures Times(Listed(es, o), e) == if e in es && e.live && !Hoisted(o, e) then 1 else 0
  {
    if es != [] {
      var n := |es| - 1;
      DistinctLast(es, e);
      TimesListed(es[..n], o, e);
      TimesConcat(Listed(es[..n], o), Listing(es[n], o), e);
      TimesListing(es[n], o, e);
    }
  }

  /** All that is submitted. */
  ghost function Submitted(es: seq<Entry>, o: HeadersOut): seq<Submission> {
    Resolved(o) + Listed(es, o)
  }

  /** Every live entry of the list is submitted exactly once, whichever of the fields point
      into the list, if and only if no entry is in two of the fields. */
  lemma CountedOnce(es: seq<Entry>, o: HeadersOut)
    requires Distinct(es)
    ensures (forall e :: e in es && e.live ==> Times(Submitted(es, o), e) == 1)
       <==> (forall e :: e in es && e.live ==> Fields(o, e) <= 1)
  {
    forall e | e in es && e.live
      ensures Times(Submitted(es, o), e) == if Fields(o, e) == 0 then 1 else Fields(o, e)
    {
      TimesConcat(Resolved(o), Listed(es, o), e);
      TimesResolved(o, e);
      TimesListed(es, o, e);
    }
  }

  /** A list entry outside the fields is submitted under its own name and value. */
  lemma {:induction false} ListedAsIs(es: seq<Entry>, o: HeadersOut, s: Submission)
    requires s in Listed(es, o)
    ensures s.origin != null && s.origin in es && s.origin.live && !Hoisted(o, s.origin)
    ensures s.pair == Pair(s.origin.key, s.origin.value)
  {
    var n := |es| - 1;
    if s in Listed(es[..n], o) {
      ListedAsIs(es[..n], o, s);
    }
  }

  // ---------- submitted as it is ----------

  /** What the engine is to be told of an entry: its value under the name of the field it is in,
      the text of its time for Last-Modified, and otherwise just what it says. */
  ghost function AsSubmitted(o: HeadersOut, e: Entry): Pair {
    if e == o.server then Pair(SERVER, e.value)
    else if e == o.date then Pair(DATE, e.value)
    else if e == o.lastModified && o.lastModifiedTime != -1 then Pair(LAST_MODIFIED, o.lastModifiedText)
    else Pair(e.key, e.value)
  }

  lemma {:induction false} MadeUpFromNothing(ps: seq<Pair>, s: Submission)
    requires s in MadeUp(ps)
    ensures s.origin == null && s.pair in ps
  {
    var n := |ps| - 1;
    if s in MadeUp(ps[..n]) {
      MadeUpFromNothing(ps[..n], s);
    }
  }

  /** Whatever stands for an entry in at most one field says of it what it should. */
  lemma SubmittedAsIs(es: seq<Entry>, o: HeadersOut, s: Submission)
    requires s in Submitted(es, o) && s.origin != null && Fields(o, s.origin) <= 1
    ensures s.pair == AsSubmitted(o, s.origin)
  {
    if s in Listed(es, o) {
      ListedAsIs(es, o, s);
    } else if s in MadeUp(o.entity) {
      MadeUpFromNothing(o.entity, s);
    } else if s in MadeUp(o.connection) {
      MadeUpFromNothing(o.connection, s);
    } else if s in LastModifiedField(o) {
    } else {
      assert s == ServerField(o) || s == DateField(o);
    }
  }

  /** Where a field is empty, the server's own name or the current time is submitted for it. */
  lemma EmptyFields(es: seq<Entry>, o: HeadersOut)
    ensures o.server == null ==> Submission(Pair(SERVER, o.ownServer), null) in Submitted(es, o)
    ensures o.date == null ==> Submission(Pair(DATE, o.now), null) in Submitted(es, o)
    ensures o.lastModifiedTime != -1 ==>
              Submission(Pair(LAST_MODIFIED, o.lastModifiedText), o.lastModified) in Submitted(es, o)
  {
    assert Resolved(o)[0] == ServerField(o) && Resolved(o)[1] == DateField(o);
    if o.lastModifiedTime != -1 {
      assert LastModifiedField(o)[0] in Resolved(o);
    }
  }

  lemma {:induction false} TimesFound(subs: seq<Submission>, e: Entry)
    requires Times(subs, e) > 0
    ensures exists i :: 0 <= i < |subs| && subs[i].origin == e
  {
    var n := |subs| - 1;
    if subs[n].origin != e {
      TimesFound(subs[..n], e);
      var i :| 0 <= i < n && subs[..n][i].origin == e;
      assert subs[i].origin == e;
    }
  }

  /** A live entry of the list in at most one field reaches the engine exactly once, saying what
      it should. */
  lemma EntryArrives(es: seq<Entry>, o: HeadersOut, e: Entry) returns (i: nat)
    requires Distinct(es) && e in es && e.live && Fields(o, e) <= 1
    ensures Times(Submitted(es, o), e) == 1
    ensures i < |Submitted(es, o)| && Submitted(es, o)[i] == Submission(AsSubmitted(o, e), e)
  {
    var all := Submitted(es, o);
    TimesConcat(Resolved(o), Listed(es, o), e);
    TimesResolved(o, e);
    TimesListed(es, o, e);
    TimesFound(all, e);
    i :| 0 <= i < |all| && all[i].origin == e;
    SubmittedAsIs(es, o, all[i]);
  }

  // ---------- the two passes ----------

  ghost predicate Worse(before: (nat, nat), after: (nat, nat)) {
    var worse := after.0 >= before.0 && after.1 >= before.1 && after != before;
    worse
  }

  class HeaderPass {
    const engine: Engine
    const pool: Pool
    var armed: bool               // submissions are collected, not sent
    var collect: seq<Pair>
    ghost const had: seq<Pair>    // what the engine had before
    ghost var subs: seq<Submission>

    constructor (engine: Engine, pool: Pool, armed: bool)
      ensures Valid() && this.engine == engine && this.pool == pool && had == engine.headers && subs == []
    {
      this.engine, this.pool, this.armed, collect := engine, pool, armed, [];
      had, subs := engine.headers, [];
    }

    ghost predicate Valid()
      reads this, engine
    {
      if armed then collect == Pairs(subs) && engine.headers == had
      else engine.headers == had + NarrowedAll(Pairs(subs))
    }

    /** How often what makes a pass give up has happened: allocations failed, headers refused. */
    ghost function Trouble(): (nat, nat)
      reads this, engine, pool
    {
      (pool.failures, Misses(engine.answers))
    }

    method Add(name: octets, value: octets, ghost origin: Entry?) returns (ok: bool)
      requires Valid()
      modifies this`collect, this`subs, pool, engine
      ensures if ok then Trouble() == old(Trouble()) else Worse(old(Trouble()), Trouble())
      ensures ok ==> Valid() && subs == old(subs) + [Submission(Pair(name, value), origin)]
    {
      if armed {
        ok := pool.Alloc();
        if !ok { return; }
        collect := collect + [Pair(name, value)];
      } else {
        ghost var asked := engine.answers;
        var rc := engine.AddNarrowed(name, value);
        MissesNext(asked, rc >= 0);
        ok := rc >= 0;
        if !ok { return; }
      }
      subs := subs + [Submission(Pair(name, value), origin)];
      assert NarrowedAll(Pairs(subs)) == NarrowedAll(Pairs(old(subs))) + [Narrowed(Pair(name, value))];
    }

    method AddMadeUp(ps: seq<Pair>) returns (ok: bool)
      requires Valid()
      modifies this`collect, this`subs, pool, engine
      ensures if ok then Trouble() == old(Trouble()) else Worse(old(Trouble()), Trouble())
      ensures ok ==> Valid() && subs == old(subs) + MadeUp(ps)
    {
      for i := 0 to |ps|
        invariant Valid() && subs == old(subs) + MadeUp(ps[..i]) && Trouble() == old(Trouble())
      {
        ok := Add(ps[i].name, ps[i].value, null);
        if !ok { return; }
        assert ps[..i + 1][..i] == ps[..i];
      }
      assert ps[..|ps|] == ps;
      ok := true;
    }

    method ResolveServerAndDate(o: HeadersOut) returns (ok: bool)
      requires Valid()
      modifies this`collect, this`subs, pool, engine
      ensures if ok then Trouble() == old(Trouble()) else Worse(old(Trouble()), Trouble())
      ensures ok ==> Valid() && subs == old(subs) + [ServerField(o), DateField(o)]
    {
      ok := Add(SERVER, if o.server == null then o.ownServer else o.server.value, o.server);
      if !ok { return; }
      ok := Add(DATE, if o.date == null then o.now else o.date.value, o.date);
    }

    method ResolveLastModified(o: HeadersOut) returns (ok: bool)
      requires Valid()
      modifies this`collect, this`subs, pool, engine
      ensures if ok then Trouble() == old(Trouble()) else Worse(old(Trouble()), Trouble())
      ensures ok ==> Valid() && subs == old(subs) + LastModifiedField(o)
    {
      if o.lastModifiedTime == -1 { return true; }
      ok := Add(LAST_MODIFIED, o.lastModifiedText, o.lastModified);
    }

    method Resolve(o: HeadersOut) returns (ok: bool)
      requires Valid()
      modifies this`collect, this`subs, pool, engine
      ensures if ok then Trouble() == old(Trouble()) else Worse(old(Trouble()), Trouble())
      ensures ok ==> Valid() && subs == old(subs) + Resolved(o)
    {
      ok := ResolveServerAndDate(o);
      if !ok { return; }
      ok := AddMadeUp(o.entity);
      if !ok { return; }
      ok := ResolveLastModified(o);
      if !ok { return; }
      ok := AddMadeUp(o.connection);
    }

    method AddEntry(e: Entry, o: HeadersOut) returns (ok: bool)
      requires Valid()
      modifies this`collect, this`subs, pool, engine
      ensures if ok then Trouble() == old(Trouble()) else Worse(old(Trouble()), Trouble())
      ensures ok ==> Valid() && subs == old(subs) + Listing(e, o)
    {
      if !e.live { return true; }
      if Hoisted(o, e) { return true; }
      ok := Add(e.key, e.value, e);
    }

    method AddList(parts: seq<seq<Entry>>, o: HeadersOut) returns (ok: bool)
      requires Valid() && IsList(parts)
      modifies this`collect, this`subs, pool, engine
      ensures if ok then Trouble() == old(Trouble()) else Worse(old(Trouble()), Trouble())
      ensures ok ==> Valid() && subs == old(subs) + Listed(Flatten(parts), o)
    {
      ghost var before, listed := subs, [];
      var p, i := 0, 0;
      while true
        invariant p < |parts| && i <= |parts[p]| && Valid()
        invariant listed == Listed(Before(parts, p, i), o) && subs == before + listed && Trouble() == old(Trouble())
        decreases |parts| - p, |parts[p]| - i
      {
        var found;
        found, p, i := Seek(parts, p, i);
        if !found { break; }
        ListedNext(parts, p, i, o);
        ghost var next := Listing(parts[p][i], o);
        ok := AddEntry(parts[p][i], o);
        if !ok { return; }
        Regroup(before, listed, next);
        listed := listed + next;
        i := i + 1;
      }
      ok := true;
    }

    /** Both passes. */
    method AddAll(parts: seq<seq<Entry>>, o: HeadersOut) returns (ok: bool)
      requires Valid() && IsList(parts)
      modifies this`collect, this`subs, pool, engine
      ensures if ok then Trouble() == old(Trouble()) else Worse(old(Trouble()), Trouble())
      ensures ok ==> Valid() && subs == old(subs) + Resolved(o) + Listed(Flatten(parts), o)
    {
      ok := Resolve(o);
      if ok { ok := AddList(parts, o); }
    }

    /** Hand the collected headers over as a batch or, failing that, one by one. */
    method FlushCollected() returns (ok: bool)
      requires Valid() && armed && Addressable(collect)
      modifies this`armed, engine, pool
      ensures ok ==> Valid() && !armed
      ensures Misses(engine.answers) == Misses(old(engine.answers)) + if ok then 0 else 1
    {
      armed := false;
      var done := false;
      if |collect| > 0 {
        done := AddPacked(engine, pool, collect);
      }
      if done {
        NarrowedExact(collect);
        return true;
      }
      ok := Replay(engine, collect);
    }

    /** Both passes and what follows them; `all` is what is to be submitted. */
    method Submit(parts: seq<seq<Entry>>, o: HeadersOut, ghost all: seq<Submission>) returns (ok: bool)
      requires Valid() && IsList(parts) && subs == [] && all == Submitted(Flatten(parts), o) && Addressable(Pairs(all))
      modifies this`collect, this`subs, this`armed, pool, engine
      ensures ok ==> engine.headers == had + NarrowedAll(Pairs(all))
      ensures ok ==> Misses(engine.answers) == Misses(old(engine.answers))
      ensures !ok ==> Misses(engine.answers) > Misses(old(engine.answers)) || pool.failures > old(pool.failures)
    {
      ok := AddAll(parts, o);
      if !ok { return; }
      FromNothing(Resolved(o), Listed(Flatten(parts), o));
      assert subs == all;
      if armed {
        ok := FlushCollected();
      }
    }
  }

  method Replay(engine: Engine, ps: seq<Pair>) returns (ok: bool)
    modifies engine
    ensures ok ==> engine.headers == old(engine.headers) + NarrowedAll(ps)
    ensures Misses(engine.answers) == Misses(old(engine.answers)) + if ok then 0 else 1
  {
    for i := 0 to |ps|
      invariant Misses(engine.answers) == Misses(old(engine.answers))
      invariant engine.headers == old(engine.headers) + NarrowedAll(ps[..i])
    {
      ghost var asked := engine.answers;
      var rc := engine.AddNarrowed(ps[i].name, ps[i].value);
      MissesNext(asked, rc >= 0);
      if rc < 0 { return false; }
      assert NarrowedAll(ps[..i + 1]) == NarrowedAll(ps[..i]) + [Narrowed(ps[i])];
    }
    assert ps[..|ps|] == ps;
    ok := true;
  }

  /** Submit the response headers. Whether they were collected or not, and whether the batch
      was taken or refused, the engine receives the same sequence. */
  method SubmitHeaders(engine: Engine, pool: Pool, parts: seq<seq<Entry>>, o: HeadersOut) returns (ok: bool)
    requires IsList(parts) && Addressable(Pairs(Submitted(Flatten(parts), o)))
    modifies engine, pool
    ensures ok ==> engine.headers == old(engine.headers) + NarrowedAll(Pairs(Submitted(Flatten(parts), o)))
    ensures ok ==> Misses(engine.answers) == Misses(old(engine.answers))
    ensures !ok ==> Misses(engine.answers) > Misses(old(engine.answers)) || pool.failures > old(pool.failures)
  {
    var armed := pool.Alloc();
    var pass := new HeaderPass(engine, pool, armed);
    ok := pass.Submit(parts, o, Submitted(Flatten(parts), o));
  }
}
