/**
Whole responses: one header pass, then any number of body chains. Before every call whoever
made the buffers overwrites all of their memory and temporary files.
 */
module ResponseRun {
  import opened Buffers
  import opened ResponseTraces
  import opened ResponseFilter
  import opened Interventions

  /** What the storage of the buffers holds at one moment. */
  type Contents = map<object, seq<byte>>

  /** What a buffer carries when its storage holds w. */
  ghost function Carried(b: Buf, w: Contents): seq<byte> {
    if b.inMemory then (if b.mem in w && b.pos <= b.last <= |w[b.mem]| then w[b.mem][b.pos..b.last] else [])
    else if FileBacked(b) && b.file in w && 0 <= b.filePos <= b.fileLast <= |w[b.file]|
    then w[b.file][b.filePos..b.fileLast]
    else []
  }

  ghost function Carries(ins: seq<Buf>, w: Contents): (ps: seq<seq<byte>>)
    ensures |ps| == |ins|
  {
    seq(|ins|, i requires 0 <= i < |ins| => Carried(ins[i], w))
  }

  /** What all the buffers of a run carry, chain k when the storage holds `writes[k]`. */
  ghost function AllCarried(chains: seq<seq<Buf>>, writes: seq<Contents>): seq<seq<byte>>
    requires |chains| == |writes|
  {
    if chains == [] then []
    else
      var n := |chains| - 1;
      AllCarried(chains[..n], writes[..n]) + Carries(chains[n], writes[n])
  }

  /** Which of them are marked last. */
  ghost function AllLasts(chains: seq<seq<Buf>>): seq<bool> {
    if chains == [] then [] else AllLasts(chains[..|chains| - 1]) + Lasts(chains[|chains| - 1])
  }

  /** `sent` and `marks` are the record of the first n chains. */
  ghost predicate ToldUpTo(chains: seq<seq<Buf>>, writes: seq<Contents>, sent: seq<seq<byte>>, marks: seq<bool>, n: nat) {
    var told := n <= |chains| == |writes| && sent == AllCarried(chains[..n], writes[..n]) && marks == AllLasts(chains[..n]);
    told
  }

  lemma RunNext(chains: seq<seq<Buf>>, writes: seq<Contents>, sent: seq<seq<byte>>, marks: seq<bool>, n: nat)
    requires n < |chains| && ToldUpTo(chains, writes, sent, marks, n)
    ensures ToldUpTo(chains, writes, sent + Carries(chains[n], writes[n]), marks + Lasts(chains[n]), n + 1)
  {
    assert chains[..n + 1][..n] == chains[..n] && writes[..n + 1][..n] == writes[..n];
  }

  lemma RunOver(chains: seq<seq<Buf>>, writes: seq<Contents>, sent: seq<seq<byte>>, marks: seq<bool>)
    requires ToldUpTo(chains, writes, sent, marks, |chains|)
    ensures sent == AllCarried(chains, writes) && marks == AllLasts(chains)
  {
    assert chains[..|chains|] == chains && writes[..|chains|] == writes;
  }

  /** The storage of b holds what w says. */
  ghost predicate Holds(b: Buf, w: Contents)
    reads Storage(b)
  {
    if b.inMemory then b.mem in w && b.mem[..] == w[b.mem]
    else b.file != null ==> b.file in w && b.file.content == w[b.file]
  }

  lemma CarriedNow(b: Buf, w: Contents)
    requires Holds(b, w)
    ensures Payload(b) == Carried(b, w)
  {
    if b.inMemory { assert |w[b.mem]| == b.mem.Length; }
  }

  /** What can be written: memory keeps its size, stable files their contents. */
  ghost predicate Writable(b: Buf, w: Contents, stable: set<File>)
    reads stable
  {
    if b.inMemory then b.mem in w && |w[b.mem]| == b.mem.Length
    else b.file != null ==> b.file in w && (b.file in stable ==> b.file.content == w[b.file])
  }

  ghost predicate AllWritable(pool: seq<Buf>, w: Contents, stable: set<File>)
    reads stable
  {
    var all := forall i :: 0 <= i < |pool| ==> Writable(pool[i], w, stable);
    all
  }

  /** The chain can be handed to the filter when the storage holds w. */
  ghost predicate Presentable(ins: seq<Buf>, w: Contents, inspecting: bool, stable: set<File>) {
    var all := forall b :: b in ins ==>
      && (b.inMemory ==> b.pos <= b.last <= b.mem.Length)
      && (FileBacked(b) && !InvertedRange(b) ==> b.file in w && 0 <= b.filePos && b.fileLast <= |w[b.file]|)
      && (!inspecting ==> !InvertedRange(b)) && (FileBacked(b) && !b.tempFile ==> b.file in stable);
    all
  }

  ghost predicate Usable(ins: seq<Buf>, inspecting: bool, stable: set<object>)
    reads Foot(ins)
  {
    var usable := forall b :: b in ins ==> Acceptable(b, inspecting, stable);
    usable
  }

  method Overwrite(a: array<byte>, s: seq<byte>)
    requires |s| == a.Length
    modifies a
    ensures a[..] == s
  {
    for k := 0 to a.Length
      invariant a[..k] == s[..k]
    {
      a[k] := s[k];
    }
  }

  lemma NotAFile(a: array<byte>, files: set<File>)
    ensures var objects: set<object> := files; a !in objects
  {
    var objects: set<object> := files;
    assert forall o :: o in objects ==> o is File;
  }

  /** The producers write new contents to all their memory and temporary files. */
  method Recycle(pool: seq<Buf>, w: Contents, stable: set<File>)
    requires AllWritable(pool, w, stable)
    modifies Foot(pool) - stable
    ensures forall i :: 0 <= i < |pool| ==> Holds(pool[i], w)
  {
    for i := 0 to |pool|
      invariant AllWritable(pool, w, stable)
      invariant forall j :: 0 <= j < i ==> Holds(pool[j], w)
    {
      var b := pool[i];
      assert b in pool && Storage(b) <= Foot(pool) && Writable(b, w, stable);
      if b.inMemory {
        NotAFile(b.mem, stable);
        Overwrite(b.mem, w[b.mem]);
      } else if b.file != null && b.file !in stable {
        b.file.content := w[b.file];
      }
    }
  }

  /** The headers are still held, or have been replaced by a redirect. */
  ghost predicate Emptying(ctx: ResponseCtx)
    reads ctx
  {
    ctx.delayed || (ctx.triggered && !ctx.t.ended)
  }

  lemma ReadyNow(pool: seq<Buf>, ins: seq<Buf>, w: Contents, inspecting: bool, stable: set<File>)
    requires forall i :: 0 <= i < |pool| ==> Holds(pool[i], w)
    requires (forall b :: b in ins ==> b in pool) && Presentable(ins, w, inspecting, stable)
    ensures Usable(ins, inspecting, stable) && Payloads(ins) == Carries(ins, w) && Foot(ins) <= Foot(pool)
  {
    forall b | b in ins ensures Acceptable(b, inspecting, stable) && Payload(b) == Carried(b, w) {
      var i :| 0 <= i < |pool| && pool[i] == b;
      assert Holds(pool[i], w);
      CarriedNow(b, w);
    }
  }

  /** How the response begins: the engine's answers on its headers and the request's state.
      `location` tells of a Location header when the response is refused, if it is. */
  datatype Start = Start(reply: Reply, added: bool, pret: int, ruled: nat, headerSent: bool, inspect: bool,
                         triggered: bool, headerOnly: bool, errorPage: bool, location: bool)
  {
    /** The header pass refuses the response. */
    predicate Refused() {
      !triggered && !errorPage && added && Denies(pret, ruled, headerSent)
    }

    /** The verdict on the headers came when they had already been sent. */
    predicate Overlooked() {
      !triggered && !errorPage && added && TooLate(pret, ruled, headerSent)
    }

    predicate Inspects() {
      inspect && added && !triggered
    }

    /** The headers are to be held back. */
    predicate Waits() {
      && added && !triggered && !errorPage && !headerOnly && !Denies(pret, ruled, headerSent)
      && reply.delayOn && !reply.head && reply.main && reply.status != 101 && !reply.eventStream
    }
  }

  /** Between two calls of a run: what the header pass decided still stands, headers are held
      exactly as long as they should be, and a refusal has been answered as it should be. */
  ghost predicate Underway(ctx: ResponseCtx, foot: set<object>, stable: set<object>, start: Start, sent: seq<seq<byte>>, marks: seq<bool>)
    reads ctx, ctx.pending, ctx.pending.spine, ctx.pending.Repr
  {
    var underway :=
      && ctx.Valid() && ctx.Apart(foot) && ctx.stable == stable && ctx.foreign == foot - stable
      && Tale(ctx.Now(), start.Waits(), start.triggered, AnswerOf(ctx.spoken, ctx.errorPage), start.location,
              sent, marks)
      && ctx.inspecting == start.Inspects() && ctx.errorPage == start.errorPage
      && ctx.t.overlooked == start.Overlooked() && (start.Refused() ==> ctx.t.replaced);
    underway
  }

  /** One call. */
  method Next(ctx: ResponseCtx, ins: seq<Buf>, start: Start, ghost foot: set<object>, ghost sent: seq<seq<byte>>, ghost marks: seq<bool>)
      returns (outs: seq<Buf>)
    requires Underway(ctx, foot, ctx.stable, start, sent, marks)
    requires Usable(ins, ctx.inspecting, ctx.stable) && Foot(ins) <= foot
    modifies ctx, ctx.pending, ctx.pending.spine
    ensures Underway(ctx, foot, ctx.stable, start, sent + old(Payloads(ins)), marks + Lasts(ins))
    ensures Emptying(ctx) ==> AllDrained(ins, outs) && old(Emptying(ctx))
    ensures fresh(ctx.pending.spine - old(ctx.pending.spine))
  {
    ghost var s, ps, before := ctx.Now(), Payloads(ins), AnswerOf(ctx.spoken, ctx.errorPage);
    outs := ctx.BodyFilter(ins, start.location);
    TaleNext(s, ctx.Now(), start.Waits(), start.triggered, before, AnswerOf(ctx.spoken, ctx.errorPage), start.location,
             sent, marks, ps, Lasts(ins));
    Drained(ctx, s, ins, outs);
  }

  /** Held or behind a redirect, the chain has been drained, and so it was before. */
  lemma Drained(ctx: ResponseCtx, s: Snap, ins: seq<Buf>, outs: seq<Buf>)
    requires ctx.delayed ==> s.delayed && !ctx.triggered && Count(Lasts(ins)) == 0
    requires ctx.triggered && !ctx.t.ended ==> s.delayed || (s.triggered && !s.t.ended)
    requires ctx.Leaves(s.delayed, ins, outs)
    ensures Emptying(ctx) ==> AllDrained(ins, outs) && (s.delayed || (s.triggered && !s.t.ended))
  {
    if ctx.triggered && !ctx.t.ended {
      ConsumedIsDrained(ins, outs);
    } else if ctx.delayed {
      HeldIsDrained(ins, outs);
    }
  }

  /** The producers recycle their buffers, then one call. */
  method RecycleThenNext(ctx: ResponseCtx, pool: seq<Buf>, ins: seq<Buf>, w: Contents, stable: set<File>,
                         start: Start, ghost sent: seq<seq<byte>>, ghost marks: seq<bool>) returns (outs: seq<Buf>)
    requires Underway(ctx, Foot(pool), stable, start, sent, marks)
    requires AllWritable(pool, w, stable) && Presentable(ins, w, start.Inspects(), stable)
    requires forall b :: b in ins ==> b in pool
    modifies ctx, ctx.pending, ctx.pending.spine, Foot(pool) - stable
    ensures Underway(ctx, Foot(pool), stable, start, sent + Carries(ins, w), marks + Lasts(ins))
    ensures Emptying(ctx) ==> AllDrained(ins, outs) && old(Emptying(ctx))
    ensures fresh(ctx.pending.spine - old(ctx.pending.spine))
  {
    Recycle(pool, w, stable);
    ReadyNow(pool, ins, w, ctx.inspecting, stable);
    outs := Next(ctx, ins, start, Foot(pool), sent, marks);
  }

  /** The request reaches the filters and the response headers are dealt with. */
  method Begin(ghost foot: set<object>, ghost stable: set<File>, start: Start) returns (ok: bool, ctx: ResponseCtx)
    ensures fresh(ctx) && fresh(ctx.pending) && ctx.pending.spine == {}
    ensures ctx.errorPage == start.errorPage && ctx.inspecting == start.Inspects()
    ensures ok == (start.triggered || start.added) && (ok ==> Underway(ctx, foot, stable, start, [], []))
    ensures ctx.triggered <==> start.triggered || start.Refused()
    ensures ctx.t.overlooked == start.Overlooked() && (start.Refused() ==> ctx.t.replaced)
  {
    ctx := new ResponseCtx(start.triggered, start.headerOnly, start.errorPage, stable, foot - stable);
    ok := ctx.HeaderFilter(start.reply, start.added, start.pret, start.ruled, start.headerSent, start.inspect, start.location);
    BeginsWithNothing();
  }

  /** The chains are made of buffers of the pool, and what is written before each call suits it. */
  ghost predicate Scripted(pool: seq<Buf>, chains: seq<seq<Buf>>, writes: seq<Contents>, inspecting: bool, stable: set<File>)
    reads stable
  {
    var scripted :=
      |writes| == |chains| && forall n :: 0 <= n < |chains| ==>
        && (forall b :: b in chains[n] ==> b in pool)
        && AllWritable(pool, writes[n], stable) && Presentable(chains[n], writes[n], inspecting, stable);
    scripted
  }

  /** With headers held or replaced by a redirect, the first n chains are left drained. */
  ghost predicate DrainedUpTo(emptying: bool, chains: seq<seq<Buf>>, outs: seq<seq<Buf>>, n: nat) {
    var drained := |outs| == n <= |chains| && (emptying ==> forall k :: 0 <= k < n ==> AllDrained(chains[k], outs[k]));
    drained
  }

  lemma DrainedNext(before: bool, after: bool, chains: seq<seq<Buf>>, outs: seq<seq<Buf>>, n: nat, left: seq<Buf>)
    requires DrainedUpTo(before, chains, outs, n) && n < |chains|
    requires after ==> AllDrained(chains[n], left) && before
    ensures DrainedUpTo(after, chains, outs + [left], n + 1)
  {
  }

  /** The record of the first n calls, and how they left their chains. */
  ghost predicate RunUpTo(chains: seq<seq<Buf>>, writes: seq<Contents>, sent: seq<seq<byte>>, marks: seq<bool>, n: nat,
                          emptying: bool, outs: seq<seq<Buf>>)
  {
    var run := ToldUpTo(chains, writes, sent, marks, n) && DrainedUpTo(emptying, chains, outs, n);
    run
  }

  lemma StepOn(chains: seq<seq<Buf>>, writes: seq<Contents>, sent: seq<seq<byte>>, marks: seq<bool>, n: nat,
               before: bool, after: bool, outs: seq<seq<Buf>>, left: seq<Buf>)
    requires n < |chains| && RunUpTo(chains, writes, sent, marks, n, before, outs)
    requires after ==> AllDrained(chains[n], left) && before
    ensures RunUpTo(chains, writes, sent + Carries(chains[n], writes[n]), marks + Lasts(chains[n]), n + 1, after, outs + [left])
  {
    RunNext(chains, writes, sent, marks, n);
    DrainedNext(before, after, chains, outs, n, left);
  }

  /** The first n calls of a run have been made. */
  ghost predicate Going(ctx: ResponseCtx, pool: seq<Buf>, chains: seq<seq<Buf>>, writes: seq<Contents>, stable: set<File>,
                        start: Start, n: nat, outs: seq<seq<Buf>>, sent: seq<seq<byte>>, marks: seq<bool>)
    reads ctx, ctx.pending, ctx.pending.spine, ctx.pending.Repr, stable
  {
    var going :=
      && RunUpTo(chains, writes, sent, marks, n, Emptying(ctx), outs) && Underway(ctx, Foot(pool), stable, start, sent, marks)
      && Scripted(pool, chains, writes, start.Inspects(), stable);
    going
  }

  /** One more of them. */
  method RunOne(ctx: ResponseCtx, pool: seq<Buf>, chains: seq<seq<Buf>>, writes: seq<Contents>, n: nat, stable: set<File>,
                start: Start, outs: seq<seq<Buf>>, ghost sent: seq<seq<byte>>, ghost marks: seq<bool>)
      returns (outs': seq<seq<Buf>>, ghost sent': seq<seq<byte>>, ghost marks': seq<bool>)
    requires n < |chains| && Going(ctx, pool, chains, writes, stable, start, n, outs, sent, marks)
    modifies ctx, ctx.pending, ctx.pending.spine, Foot(pool) - stable
    ensures Going(ctx, pool, chains, writes, stable, start, n + 1, outs', sent', marks')
    ensures fresh(ctx.pending.spine - old(ctx.pending.spine))
  {
    ghost var before := Emptying(ctx);
    var left := RecycleThenNext(ctx, pool, chains[n], writes[n], stable, start, sent, marks);
    StepOn(chains, writes, sent, marks, n, before, Emptying(ctx), outs, left);
    outs', sent', marks' := outs + [left], sent + Carries(chains[n], writes[n]), marks + Lasts(chains[n]);
  }

  /** All the calls of a run. */
  method RunChains(ctx: ResponseCtx, pool: seq<Buf>, chains: seq<seq<Buf>>, writes: seq<Contents>, stable: set<File>, start: Start)
      returns (outs: seq<seq<Buf>>)
    requires Scripted(pool, chains, writes, start.Inspects(), stable) && Underway(ctx, Foot(pool), stable, start, [], [])
    modifies ctx, ctx.pending, ctx.pending.spine, Foot(pool) - stable
    ensures Underway(ctx, Foot(pool), stable, start, AllCarried(chains, writes), AllLasts(chains))
    ensures DrainedUpTo(Emptying(ctx), chains, outs, |chains|)
  {
    outs := [];
    ghost var sent, marks := [], [];
    for n := 0 to |chains|
      invariant Going(ctx, pool, chains, writes, stable, start, n, outs, sent, marks)
      invariant fresh(ctx.pending.spine - old(ctx.pending.spine))
    {
      outs, sent, marks := RunOne(ctx, pool, chains, writes, n, stable, start, outs, sent, marks);
    }
    RunOver(chains, writes, sent, marks);
  }

  /** What a run comes to in plain terms: one let through leaves no ruling but 200; headers are
      still held exactly if they were to wait, nothing was refused, no last buffer has come and
      the body is within 1 MiB; and a refusal is answered with what the poll said, or with 500,
      as a redirect exactly if it came before the headers went out, with a redirect status and a
      Location. */
  ghost predicate Said(ctx: ResponseCtx, start: Start, sent: seq<seq<byte>>, marks: seq<bool>)
    reads ctx
  {
    && (!ctx.triggered && !start.errorPage && !start.Overlooked() ==> ctx.ruling == 0 || ctx.ruling == 200)
    && (ctx.delayed <==> start.Waits() && !ctx.triggered && Count(marks) == 0 && |Cat(sent)| <= 1048576)
    && (ctx.triggered && !start.triggered ==>
          ctx.t.answer == (if ctx.spoken > 0 && !start.errorPage then ctx.spoken else 500)
          && (!ctx.t.ended <==> ctx.t.replaced && ctx.t.answer in [301, 302, 303, 307, 308] && start.location))
  }

  lemma RunSays(ctx: ResponseCtx, foot: set<object>, stable: set<object>, start: Start, sent: seq<seq<byte>>, marks: seq<bool>)
    requires Underway(ctx, foot, stable, start, sent, marks)
    ensures Said(ctx, start, sent, marks)
  {
  }

  /** A whole response. Nothing of what the producers do between the calls matters: what is
      handed downstream is what the buffers carried when they were handed to the filter. */
  method Respond(pool: seq<Buf>, chains: seq<seq<Buf>>, writes: seq<Contents>, stable: set<File>, start: Start)
      returns (ctx: ResponseCtx, ok: bool, outs: seq<seq<Buf>>)
    requires Scripted(pool, chains, writes, start.Inspects(), stable)
    modifies Foot(pool) - stable
    ensures ok == (start.triggered || start.added) && ctx.errorPage == start.errorPage
    ensures ok ==> Underway(ctx, Foot(pool), stable, start, AllCarried(chains, writes), AllLasts(chains))
    ensures ok ==> Outcome(ctx.Now(), AllCarried(chains, writes), AllLasts(chains))
    ensures ok ==> Said(ctx, start, AllCarried(chains, writes), AllLasts(chains))
    ensures ok ==> DrainedUpTo(Emptying(ctx), chains, outs, |chains|)
  {
    outs := [];
    ok, ctx := Begin(Foot(pool), stable, start);
    if !ok { return; }
    outs := RunChains(ctx, pool, chains, writes, stable, start);
    OutcomeOf(ctx.Now(), AllCarried(chains, writes), AllLasts(chains));
    RunSays(ctx, Foot(pool), stable, start, AllCarried(chains, writes), AllLasts(chains));
  }

  /** A response that the header pass refuses sends nothing of its body. */
  lemma RefusedAtHeaders(ctx: ResponseCtx, foot: set<object>, stable: set<object>, start: Start, sent: seq<seq<byte>>, marks: seq<bool>)
    requires Underway(ctx, foot, stable, start, sent, marks) && start.Refused()
    ensures ctx.triggered && ctx.t.forwarded == []
  {
    assert Law(ctx.Now());
  }
}
