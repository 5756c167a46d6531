/**
The response body filter: buffers are inspected, then held on the pending list or passed
on. The engine, allocation, file reads and the filters downstream answer as they please.
 */
module ResponseFilter {
  import opened Buffers
  import opened ResponseTraces
  import opened Interventions

  datatype Verdict = Go | Yield | Stop(status: int)

  const INTERNAL_ERROR := Stop(500)

  /** How much a buffer carries, without reading it. */
  function ChunkLen(b: Buf): nat
    requires b.inMemory ==> b.pos <= b.last
    requires !InvertedRange(b)
  {
    if b.inMemory then b.last - b.pos else if FileBacked(b) then b.fileLast - b.filePos else 0
  }

  /** The buffer with its read positions moved to the end. */
  function Consumed(b: Buf): Buf {
    if b.inMemory then b.(pos := b.last) else if b.inFile then b.(filePos := b.fileLast) else b
  }

  /** How the loop leaves a buffer: consumed if it was taken over, else as it came. */
  function LeftAs(b: Buf, delayed: bool): Buf {
    if delayed && !b.lastBuf then Consumed(b) else b
  }

  /** The most of a buffer that the engine is given at once. */
  function Span(b: Buf): nat {
    if !b.inMemory then FILE_CHUNK else if b.pos <= b.last then b.last - b.pos else 0
  }

  /** And of a chain. */
  ghost function ChainSpan(ins: seq<Buf>): nat {
    if ins == [] then 0 else Max(ChainSpan(ins[..|ins| - 1]), Span(ins[|ins| - 1]))
  }

  lemma {:induction false} SpanOfOne(ins: seq<Buf>, n: nat)
    requires n < |ins|
    ensures Span(ins[n]) <= ChainSpan(ins)
  {
    var last := |ins| - 1;
    if n < last { SpanOfOne(ins[..last], n); }
  }

  /** A buffer that cannot be inspected. */
  predicate Unfit(b: Buf) {
    InvertedRange(b) || (b.inMemory && b.last - b.pos > INT_MAX)
  }

  /** If the chain holds such a buffer, that has been noted. */
  ghost predicate Noted(ins: seq<Buf>, inspecting: bool, upset: bool) {
    var noted := inspecting && !upset ==> forall b :: b in ins ==> !Unfit(b);
    noted
  }

  lemma NotedNext(ins: seq<Buf>, inspecting: bool, n: nat)
    requires n < |ins| && Noted(ins[..n], inspecting, false) && (inspecting ==> !Unfit(ins[n]))
    ensures Noted(ins[..n + 1], inspecting, false)
  {
    assert ins[..n + 1] == ins[..n] + [ins[n]];
  }

  /** How a walk that goes through leaves a chain. */
  ghost function AllLeft(ins: seq<Buf>, delayed: bool): seq<Buf> {
    seq(|ins|, i requires 0 <= i < |ins| => LeftAs(ins[i], delayed))
  }

  lemma LeftNext(ins: seq<Buf>, delayed: bool, n: nat)
    requires n < |ins|
    ensures AllLeft(ins[..n + 1], delayed) == AllLeft(ins[..n], delayed) + [LeftAs(ins[n], delayed)]
  {
  }

  /** The buffers that are left alone by whoever made them outlive the call. */
  ghost predicate Acceptable(b: Buf, inspecting: bool, stable: set<object>)
    reads Storage(b)
  {
    var ok :=
      && Readable(b) && (!inspecting ==> !InvertedRange(b))
      && (FileBacked(b) && !b.tempFile ==> b.file in stable);
    ok
  }

  /** The chain can be handed to the filter and carries `ps`. */
  ghost predicate Fit(ins: seq<Buf>, ps: seq<seq<byte>>, inspecting: bool, stable: set<object>)
    reads Foot(ins)
  {
    var fit := Payloads(ins) == ps && forall i :: 0 <= i < |ins| ==> Acceptable(ins[i], inspecting, stable);
    fit
  }

  lemma FitOne(ins: seq<Buf>, ps: seq<seq<byte>>, inspecting: bool, stable: set<object>, n: nat)
    requires Fit(ins, ps, inspecting, stable) && n < |ins|
    ensures |ps| == |ins| && Payload(ins[n]) == ps[n] && Acceptable(ins[n], inspecting, stable)
    ensures Storage(ins[n]) <= Foot(ins)
  {
    assert Payloads(ins)[n] == Payload(ins[n]);
  }

  ghost function Lasts(ins: seq<Buf>): (r: seq<bool>)
    ensures |r| == |ins| && forall i :: 0 <= i < |ins| ==> r[i] == ins[i].lastBuf
  {
    seq(|ins|, i requires 0 <= i < |ins| => ins[i].lastBuf)
  }

  /** What the header filter looks at before it holds headers back. */
  datatype Reply = Reply(delayOn: bool, head: bool, main: bool, status: int, eventStream: bool)
  {
    predicate MayWait() {
      delayOn && !head && main && status != 101 && !eventStream
    }
  }

  class ResponseCtx {
    var triggered: bool
    var processed: bool           // the header filter has begun
    var delayed: bool
    var inspecting: bool          // response_body_processable
    var pendingBytes: nat
    const pending: Pending
    var headerOnly: bool
    const errorPage: bool
    ghost const stable: set<object>  // files their maker leaves alone
    ghost var foreign: set<object>   // what producers may overwrite between calls
    ghost var t: Traces
    var ruling: nat               // the engine: what it holds against the response, 0 for nothing
    ghost var spoken: int         // what the last poll said that was not silent
    ghost var largest: nat        // largest single append to the engine
    ghost var cap: nat            // what no append of the call at hand exceeds

    /** A request whose response is about to start. An intervention in an earlier phase means
        that the response is nginx's own. */
    constructor (triggered: bool, headerOnly: bool, errorPage: bool, ghost stable: set<object>, ghost foreign: set<object>)
      requires stable !! foreign
      ensures Opening() && !processed && !inspecting && fresh(pending) && pending.spine == {}
      ensures this.triggered == triggered && this.headerOnly == headerOnly && this.errorPage == errorPage
      ensures this.stable == stable && this.foreign == foreign && largest == 0 && ruling == 0 && spoken == 0
    {
      this.triggered, this.headerOnly, this.errorPage := triggered, headerOnly, errorPage;
      processed, inspecting, delayed, pendingBytes, largest, ruling, spoken := false, false, false, 0, 0, 0, 0;
      this.stable, this.foreign, t := stable, foreign, NO_TRACES.(ended := triggered, upset := triggered);
      pending := new Pending();
    }

    /** Note an answer that the filter cannot go on with. */
    ghost method Note(adverse: bool)
      modifies this`t
      ensures t == old(t).(upset := old(t).upset || adverse)
    {
      t := t.(upset := t.upset || adverse);
    }

    method Allocation() returns (ok: bool)
      modifies this`t
      ensures t == old(t).(upset := old(t).upset || !ok)
    {
      ok := *;
      Note(!ok);
    }

    /** One read; an error or an early end of file is an answer to note. */
    method Read(content: seq<byte>, size: nat, offset: nat) returns (n: nat, data: seq<byte>)
      requires offset <= |content|
      modifies this`t
      ensures n <= size && offset + n <= |content| && data == content[offset..offset + n]
      ensures t == old(t).(upset := old(t).upset || n == 0)
    {
      var got;
      got, data := ReadAt(content, size, offset);
      n := if got <= 0 then 0 else got;
      Note(n == 0);
    }

    /** Read all a buffer carries: straight from memory, or by repeated reads of its file. */
    method ReadBodyData(b: Buf) returns (ok: bool, data: seq<byte>)
      requires Readable(b) && !InvertedRange(b)
      modifies this`t
      ensures ok ==> data == Payload(b)
      ensures t == old(t).(upset := old(t).upset || !ok)
    {
      if b.inMemory {
        return true, b.mem[b.pos..b.last];
      }
      data := [];
      if FileBacked(b) {
        if b.fileLast == b.filePos { return true, []; }
        ok := Allocation();
        if !ok { return; }
        ok, data := ReadRange(b.file.content, b.filePos, b.fileLast);
        return;
      }
      ok := true;
    }

    method ReadRange(content: seq<byte>, from: nat, to: nat) returns (ok: bool, data: seq<byte>)
      requires from <= to <= |content|
      modifies this`t
      ensures ok ==> data == content[from..to]
      ensures t == old(t).(upset := old(t).upset || !ok)
    {
      data := [];
      var offset := from;
      while offset < to
        invariant from <= offset <= to && data == content[from..offset] && t == old(t)
      {
        var n, part := Read(content, to - offset, offset);
        if n == 0 { return false, data; }
        data := data + part;
        offset := offset + n;
      }
      ok := true;
    }

    /** Give the engine some body. It may refuse it, or take it and rule against the response;
        a ruling that blocks stays until it is fetched. */
    method AppendBody(data: seq<byte>) returns (rc: int)
      requires |data| <= INT_MAX
      modifies this`t, this`ruling, this`largest
      ensures t == if rc == 0 then old(t).(appended := old(t).appended + data, upset := old(t).upset || Blocks(ruling))
                   else old(t).(upset := true)
      ensures Blocks(old(ruling)) || rc != 0 ==> ruling == old(ruling)
      ensures largest == Max(old(largest), |data|)
    {
      rc := *;
      largest := Max(largest, |data|);
      if rc == 0 {
        if !Blocks(ruling) { ruling := *; }
        t := t.(appended := t.appended + data);
      }
      Note(rc != 0 || Blocks(ruling));
    }

    /** Run the response-body rules. The engine may fail, or report a ruling. */
    method Evaluate() returns (pret: int)
      modifies this`t, this`ruling
      ensures t == old(t).(evaluated := old(t).evaluated + [old(t).appended],
                           upset := old(t).upset || pret < 0 || (pret == 1 && Blocks(ruling)))
      ensures pret != 1 ==> ruling == old(ruling)
    {
      pret := *;
      if pret == 1 { ruling := *; }
      t := t.(evaluated := t.evaluated + [t.appended]);
      Note(pret < 0 || (pret == 1 && Blocks(ruling)));
    }

    /** The engine holds nothing that has not been acted on. */
    ghost predicate Heard()
      reads this`ruling, this`spoken, this`t
    {
      !errorPage ==> spoken == 0 && (!t.overlooked ==> !Blocks(ruling))
    }

    /** Submit a file range in chunks. Whatever the reads return, success means the whole
        range was appended and failure a proper part of it, with the flag set. */
    method AppendFile(b: Buf) returns (ok: bool, ghost k: nat)
      requires FileBacked(b) && Readable(b)
      modifies this`t, this`triggered, this`ruling, this`largest
      ensures k <= |Payload(b)| && t == old(t).(appended := old(t).appended + Payload(b)[..k], upset := t.upset)
      ensures ok ==> k == |Payload(b)| && triggered == old(triggered) && !InvertedRange(b)
      ensures if ok then t.upset == (old(t).upset || (k > 0 && Blocks(ruling))) else t.upset || (InvertedRange(b) && t == old(t))
      ensures old(t).upset ==> t.upset
      ensures k == 0 ==> ruling == old(ruling)
      ensures !ok ==> triggered && (!InvertedRange(b) ==> k < |Payload(b)|)
      ensures largest <= Max(old(largest), 65536)
    {
      k := 0;
      if b.fileLast < b.filePos {
        triggered := true;
        return false, 0;
      }
      if b.fileLast == b.filePos { return true, 0; }
      ok := Allocation();
      if !ok {
        triggered := true;
        return;
      }
      ok, k := AppendChunks(b.file, b.filePos, b.fileLast);
      assert b.file.content[b.filePos..b.filePos + k] == Payload(b)[..k];
      if !ok { triggered := true; }
    }

    /** One read and one append; 0 if either fails. */
    method AppendChunk(content: seq<byte>, offset: nat, to: nat) returns (n: nat)
      requires offset < to <= |content|
      modifies this`t, this`ruling, this`largest
      ensures offset + n <= to && largest <= Max(old(largest), FILE_CHUNK)
      ensures t == if n == 0 then old(t).(upset := true)
                   else old(t).(appended := old(t).appended + content[offset..offset + n], upset := old(t).upset || Blocks(ruling))
      ensures Blocks(old(ruling)) || n == 0 ==> ruling == old(ruling)
    {
      var size := if to - offset > FILE_CHUNK then FILE_CHUNK else to - offset;
      var got, data := Read(content, size, offset);
      if got == 0 { return 0; }
      var rc := AppendBody(data);
      if rc != 0 { return 0; }
      n := got;
    }

    method AppendChunks(f: File, from: nat, to: nat) returns (ok: bool, ghost k: nat)
      requires from < to <= |f.content|
      modifies this`t, this`ruling, this`largest
      ensures k <= to - from
      ensures t == old(t).(appended := old(t).appended + f.content[from..from + k],
                           upset := old(t).upset || !ok || Blocks(ruling))
      ensures if ok then k == to - from else k < to - from
      ensures k == 0 ==> ruling == old(ruling)
      ensures largest <= Max(old(largest), FILE_CHUNK)
    {
      var offset := from;
      ghost var t0, content := t, f.content;
      while offset < to
        invariant from <= offset <= to
        invariant t == t0.(appended := t0.appended + content[from..offset], upset := t0.upset || (offset > from && Blocks(ruling)))
        invariant offset == from ==> ruling == old(ruling)
        invariant largest <= Max(old(largest), FILE_CHUNK)
      {
        var n := AppendChunk(f.content, offset, to);
        if n == 0 { return false, offset - from; }
        assert content[from..offset] + content[offset..offset + n] == content[from..offset + n];
        offset := offset + n;
      }
      return true, to - from;
    }

    /** Fetch the engine's ruling; it may then forget it. */
    method Poll(headerSent: bool) returns (ret: int)
      modifies this`t, this`ruling, this`spoken
      ensures ret == Fetched(old(ruling), headerSent) && t == old(t).(upset := old(t).upset || ret != 0)
      ensures spoken == if ret != 0 then ret else old(spoken)
      ensures ruling == old(ruling) || ruling == 0
    {
      FetchedMeaning(ruling, headerSent);
      ret := Fetched(ruling, headerSent);
      if ret != 0 { spoken := ret; }
      Note(ret != 0);
      var forget: bool := *;
      if forget { ruling := 0; }
    }

    method AfterPoll(ret: int) returns (v: Verdict)
      requires !triggered
      modifies this`triggered
      ensures v == if errorPage then Yield else if ret > 0 then Stop(ret) else if ret < 0 then INTERNAL_ERROR else Go
      ensures triggered == v.Stop?
    {
      if errorPage { return Yield; }
      if ret > 0 {
        triggered := true;
        return Stop(ret);
      } else if ret < 0 {
        triggered := true;
        return INTERNAL_ERROR;
      }
      return Go;
    }

    /** Give the engine all that one buffer carries, or fail closed. */
    method Give(b: Buf, ghost p: seq<byte>) returns (ok: bool, ghost k: nat)
      requires Readable(b) && Payload(b) == p && !triggered && (Unfit(b) ==> t.upset)
      modifies this`t, this`triggered, this`ruling, this`largest
      ensures k <= |p| && t == old(t).(appended := old(t).appended + p[..k], upset := t.upset)
      ensures ok ==> k == |p| && !triggered && !Unfit(b) && t.upset == (old(t).upset || (k > 0 && Blocks(ruling)))
      ensures !ok ==> triggered && t.upset
      ensures largest <= Max(old(largest), Span(b))
    {
      if FileBacked(b) {
        ok, k := AppendFile(b);
      } else {
        ok, k := GiveMemory(b, p);
      }
    }

    method GiveMemory(b: Buf, ghost p: seq<byte>) returns (ok: bool, ghost k: nat)
      requires Readable(b) && Payload(b) == p && !triggered && (Unfit(b) ==> t.upset) && !FileBacked(b)
      modifies this`t, this`triggered, this`ruling, this`largest
      ensures k <= |p| && t == old(t).(appended := old(t).appended + p[..k], upset := t.upset)
      ensures ok ==> k == |p| && !triggered && !Unfit(b) && t.upset == (old(t).upset || (k > 0 && Blocks(ruling)))
      ensures !ok ==> triggered && t.upset
      ensures largest <= Max(old(largest), Span(b))
    {
      k := 0;
      if ChunkLen(b) > INT_MAX {
        triggered := true;
        return false, 0;
      }
      var data;
      ok, data := ReadBodyData(b);
      if !ok {
        triggered := true;
        return;
      }
      if |data| > 0 {
        var rc := AppendBody(data);
        if rc != 0 {
          triggered := true;
          return false, 0;
        }
      }
      k := |data|;
    }

    /** The engine has been given k bytes of what b carries: all of it unless something stopped
        it; and it has nothing to say against going on. */
    ghost predicate Inspected(b: Buf, v: Verdict, t0: Traces, p: seq<byte>, k: nat)
      reads this
    {
      var inspected :=
        && k <= |p| && t == t0.(appended := t0.appended + p[..k], upset := t.upset) && (!v.Stop? ==> k == |p|)
        && (t0.upset || v.Stop? ==> t.upset) && (v.Go? ==> t.upset == t0.upset && !Blocks(ruling))
        && triggered == v.Stop? && (v.Yield? ==> errorPage) && (v.Stop? ==> v.status == AnswerOf(spoken, errorPage));
      inspected
    }

    /** Show one buffer to the engine and fetch its verdict. */
    method Inspect(b: Buf, ghost p: seq<byte>) returns (v: Verdict, ghost k: nat)
      requires Readable(b) && Payload(b) == p && !triggered && (Unfit(b) ==> t.upset) && (!errorPage ==> spoken == 0)
      modifies this`t, this`triggered, this`ruling, this`spoken, this`largest
      ensures Inspected(b, v, old(t), p, k) && (v.Go? ==> spoken == old(spoken) && !Unfit(b))
      ensures largest <= Max(old(largest), Span(b))
    {
      var ok;
      ok, k := Give(b, p);
      if !ok { return INTERNAL_ERROR, k; }
      assert p[..k] == p;
      var headerSent: bool := *;
      FetchedMeaning(ruling, headerSent);
      var ret := Poll(headerSent);
      v := AfterPoll(ret);
    }

    /** Run the response-body rules on what the engine has been given. */
    method Phase4() returns (v: Verdict)
      requires !triggered && (!errorPage ==> spoken == 0)
      modifies this`t, this`triggered, this`ruling, this`spoken
      ensures (v.Stop? ==> v.status == AnswerOf(spoken, errorPage)) && (v.Go? ==> spoken == old(spoken))
      ensures t == old(t).(evaluated := old(t).evaluated + [old(t).appended], upset := t.upset)
      ensures triggered == v.Stop? && (v.Yield? ==> errorPage)
      ensures (old(t).upset || v.Stop? ==> t.upset) && (v.Go? ==> t.upset == old(t).upset)
      ensures v.Go? ==> ruling == old(ruling) || !Blocks(ruling)
    {
      var pret := Evaluate();
      if pret < 0 {
        triggered := true;
        return INTERNAL_ERROR;
      }
      var ret := 0;
      if pret == 1 {
        var headerSent: bool := *;
        FetchedMeaning(ruling, headerSent);
        ret := Poll(headerSent);
      }
      v := AfterPoll(ret);
    }

    /** A buffer carrying p has been shown to the engine, wholly unless there is a verdict. */
    ghost predicate ShownTo(b: Buf, v: Verdict, t0: Traces, p: seq<byte>)
      reads this
    {
      var shown :=
        && triggered == v.Stop? && (v.Yield? ==> errorPage) && (v.Stop? ==> t.upset) && largest <= cap
        && (v.Stop? ==> v.status == AnswerOf(spoken, errorPage))
        && (v.Go? ==> Heard() && t == Seen(t0, p, b.lastBuf, inspecting)) && SeenPartly(t0, t, p, b.lastBuf, inspecting);
      shown
    }

    /** The buffer carries p and can be shown. */
    ghost predicate Showable(b: Buf, p: seq<byte>)
      reads this, Storage(b)
    {
      var showable :=
        && !triggered && Heard() && Acceptable(b, inspecting, stable) && (inspecting && Unfit(b) ==> t.upset)
        && Payload(b) == p && largest <= cap && Span(b) <= cap;
      showable
    }

    /** Inspection and, at the final buffer, phase 4. */
    method Show(b: Buf, ghost p: seq<byte>) returns (v: Verdict)
      requires Showable(b, p)
      modifies this`t, this`triggered, this`ruling, this`spoken, this`largest
      ensures ShownTo(b, v, old(t), p) && (v.Go? ==> !InvertedRange(b)) && (v.Go? && inspecting ==> !Unfit(b))
    {
      v := Go;
      if inspecting {
        ghost var k;
        v, k := Inspect(b, p);
        assert v.Go? ==> p[..k] == p;
      }
      if v.Go? && b.lastBuf {
        v := Phase4();
      }
    }

    /** A buffer that outlives the producer's: a stable file range is named again, anything
        else is read out into memory of the request's own. */
    method Duplicate(b: Buf, ghost p: seq<byte>) returns (ok: bool, nb: Buf)
      requires Acceptable(b, inspecting, stable) && !InvertedRange(b) && Payload(b) == p
      modifies this`t
      ensures t == old(t).(upset := old(t).upset || !ok)
      ensures ok ==> Payload(nb) == p && !nb.lastBuf
      ensures ok ==> fresh(Storage(nb) - stable)
    {
      nb := b.(lastBuf := false);
      if FileBacked(b) && !b.tempFile {
        ok := Allocation();
        return;
      }
      var data;
      ok, data := ReadBodyData(b);
      if !ok { return; }
      ok := Allocation();
      if !ok { return; }
      var copy := new byte[|data|](i requires 0 <= i < |data| => data[i]);
      assert copy[0..|data|] == data;
      nb := Buf(|data| > 0, copy, 0, |data|, false, null, false, 0, 0, false, b.lastInChain, b.flush);
    }

    ghost predicate ListReady()
      reads pending, pending.spine
    {
      var ready := pending.Shape() && pending.Closed() && this !in pending.Repr;
      ready
    }

    /** Nothing the filter writes to holds the bytes of these buffers. */
    ghost predicate Apart(foot: set<object>)
      reads pending`spine
    {
      var apart := this !in foot && pending !in foot && pending.spine !! foot;
      apart
    }

    /** A link, and the buffer to hold in place of b: the final one as it is, any other as a
        duplicate, its length charged to the delay and the original marked consumed. */
    method Prepare(b: Buf, ghost p: seq<byte>) returns (ok: bool, nb: Buf, b': Buf)
      requires Acceptable(b, inspecting, stable) && !InvertedRange(b) && Payload(b) == p
      requires Apart(Storage(b)) && Apart(stable)
      modifies this`pendingBytes, this`t
      ensures t == old(t).(upset := old(t).upset || !ok)
      ensures ok ==> Payload(nb) == p && Apart(Storage(nb))
      ensures ok ==> b' == LeftAs(b, true) && pendingBytes == old(pendingBytes) + if b.lastBuf then 0 else |p|
      ensures ok ==> fresh(Storage(nb) - stable - if b.lastBuf then Storage(b) else {})
    {
      nb, b' := b, b;
      ok := Allocation();
      if ok && !b.lastBuf {
        ok, nb := Duplicate(b, p);
        if ok {
          pendingBytes := pendingBytes + ChunkLen(b);
          b' := Consumed(b);
        }
      }
    }

    /** The pending list carries one buffer more, charged unless it is the final one. */
    ghost predicate Grown(held: seq<seq<byte>>, charged: nat, p: seq<byte>, last: bool)
      reads this`pendingBytes, pending, pending.spine, pending.Repr
    {
      var grown := ListReady() && pending.Held() == held + [p] && pendingBytes == charged + if last then 0 else |p|;
      grown
    }

    /** The buffer carries p and can be added to a list that carries `held`. */
    ghost predicate Holdable(b: Buf, p: seq<byte>, held: seq<seq<byte>>)
      reads this, pending, pending.spine, pending.Repr, Storage(b)
    {
      var holdable :=
        && ListReady() && Acceptable(b, inspecting, stable) && !InvertedRange(b) && !triggered
        && Apart(Storage(b)) && Apart(stable) && Payload(b) == p && pending.Held() == held;
      holdable
    }

    /** Move one buffer onto the pending list. */
    method Hold(b: Buf, ghost p: seq<byte>, ghost held: seq<seq<byte>>) returns (ok: bool, b': Buf)
      requires Holdable(b, p, held)
      modifies this`pendingBytes, this`t, pending, pending.spine
      ensures t == old(t).(upset := old(t).upset || !ok)
      ensures ok ==> Grown(held, old(pendingBytes), p, b.lastBuf) && b' == LeftAs(b, true)
      ensures fresh(pending.spine - old(pending.spine))
      ensures ok && !b.lastBuf && stable !! foreign && old(pending.Repr !! foreign) ==> pending.Repr !! foreign
    {
      var nb;
      ok, nb, b' := Prepare(b, p);
      if !ok { return; }
      assert pending.Held() == held;
      var cl := pending.Append(nb);
    }

    /** A buffer carrying p has been shown to the engine and, with headers held, taken over. */
    ghost predicate Visited(b: Buf, v: Verdict, b': Buf, t0: Traces, p: seq<byte>, held: seq<seq<byte>>, charged: nat)
      reads this, pending, pending.spine, pending.Repr
    {
      var visited :=
        && ShownTo(b, v, t0, p) && (v.Go? ==> b' == LeftAs(b, delayed))
        && (v.Go? && delayed ==> Grown(held, charged, p, b.lastBuf));
      visited
    }

    /** One turn of the loop over the chain. */
    method Visit(b: Buf, ghost p: seq<byte>, ghost held: seq<seq<byte>>) returns (v: Verdict, b': Buf)
      requires Showable(b, p)
      requires delayed ==> ListReady() && Apart(Storage(b)) && Apart(stable) && pending.Held() == held
      modifies this`t, this`triggered, this`ruling, this`spoken, this`largest, this`pendingBytes, pending, pending.spine
      ensures Visited(b, v, b', old(t), p, held, old(pendingBytes)) && (v.Go? && inspecting ==> !Unfit(b))
      ensures fresh(pending.spine - old(pending.spine))
      ensures v.Go? && delayed && !b.lastBuf && stable !! foreign && old(pending.Repr !! foreign) ==>
                pending.Repr !! foreign
    {
      b' := b;
      v := Show(b, p);
      if v.Go? && delayed {
        v, b' := TakeOver(b, old(t), p, held);
      }
    }

    /** Hold one buffer, or fail closed. */
    method TakeOver(b: Buf, ghost t0: Traces, ghost p: seq<byte>, ghost held: seq<seq<byte>>) returns (v: Verdict, b': Buf)
      requires delayed && Holdable(b, p, held) && ShownTo(b, Go, t0, p)
      modifies this`t, this`triggered, this`pendingBytes, pending, pending.spine
      ensures Visited(b, v, b', t0, p, held, old(pendingBytes))
      ensures fresh(pending.spine - old(pending.spine))
      ensures v.Go? && !b.lastBuf && stable !! foreign && old(pending.Repr !! foreign) ==> pending.Repr !! foreign
    {
      ghost var t1, charged := t, pendingBytes;
      var ok;
      v := Go;
      ok, b' := Hold(b, p, held);
      if !ok {
        triggered := true;
        v := INTERNAL_ERROR;
      }
      TakenOver(b, v, b', t0, t1, p, held, charged);
    }

    lemma TakenOver(b: Buf, v: Verdict, b': Buf, t0: Traces, t1: Traces, p: seq<byte>, held: seq<seq<byte>>, charged: nat)
      requires t1 == Seen(t0, p, b.lastBuf, inspecting) && SeenPartly(t0, t1, p, b.lastBuf, inspecting)
      requires delayed && largest <= cap && t == t1.(upset := t1.upset || triggered)
      requires v == (if triggered then INTERNAL_ERROR else Go) && (!errorPage ==> spoken == 0)
      requires !triggered ==> Heard() && Grown(held, charged, p, b.lastBuf) && b' == LeftAs(b, true)
      ensures Visited(b, v, b', t0, p, held, charged)
    {
      SeenThenUpset(t0, t1, p, b.lastBuf, inspecting, triggered);
    }

    /** The filter is part way through a chain whose bytes live in `foot`. */
    ghost predicate Amid(m: Mid, foot: set<object>)
      reads this, pending, pending.spine, pending.Repr
    {
      var amid :=
        && !triggered && t == m.t && Heard() && largest <= cap && Apart(foot) && Apart(stable)
        && (delayed ==> ListReady() && !errorPage && pending.Held() == m.held && pendingBytes == m.charged)
        && stable !! foreign && (delayed && !m.seen ==> pending.Repr !! foreign);
      amid
    }

    /** Buffer i of the chain has been visited and is left as b'; the chain is as it was. */
    ghost predicate TurnedTo(ins: seq<Buf>, ps: seq<seq<byte>>, m: Mid, i: nat, v: Verdict, b': Buf)
      requires i < |ins| == |ps|
      reads this, pending, pending.spine, pending.Repr, Foot(ins)
    {
      var turned :=
        && triggered == v.Stop? && (v.Yield? ==> errorPage) && (v.Stop? ==> t.upset) && largest <= cap
        && (v.Stop? ==> v.status == AnswerOf(spoken, errorPage))
        && (v.Go? && inspecting ==> !Unfit(ins[i]))
        && (v.Go? ==> Amid(Step(m, ps[i], ins[i].lastBuf, inspecting), Foot(ins)) && b' == LeftAs(ins[i], delayed))
        && SeenPartly(m.t, t, ps[i], ins[i].lastBuf, inspecting)
        && Fit(ins, ps, inspecting, stable) && Apart(stable) && stable !! foreign;
      turned
    }

    ghost predicate Turnable(ins: seq<Buf>, ps: seq<seq<byte>>, m: Mid, i: nat)
      requires i < |ins|
      reads this, pending, pending.spine, pending.Repr, Foot(ins)
    {
      var turnable :=
        && Fit(ins, ps, inspecting, stable) && Amid(m, Foot(ins)) && Noted(ins, inspecting, m.t.upset) && Span(ins[i]) <= cap;
      turnable
    }

    /** One turn of the loop: buffer i of the chain is visited, and the bytes of the whole
        chain stay as they were. */
    method Turn(ins: seq<Buf>, i: nat, ghost ps: seq<seq<byte>>, ghost m: Mid) returns (v: Verdict, b': Buf)
      requires i < |ins| == |ps| && Turnable(ins, ps, m, i)
      modifies this`t, this`triggered, this`ruling, this`spoken, this`largest, this`pendingBytes, pending, pending.spine
      ensures TurnedTo(ins, ps, m, i, v, b')
      ensures fresh(pending.spine - old(pending.spine))
    {
      assert Apart(Foot(ins));
      FitOne(ins, ps, inspecting, stable, i);
      v, b' := Visit(ins[i], ps[i], m.held);
    }

    /** The loop over the chain is over: it went through, or it was cut at buffer i. */
    ghost predicate WalkedTo(s: Snap, ins: seq<Buf>, ps: seq<seq<byte>>, lasts: seq<bool>, m: Mid, v: Verdict, seen: bool, i: nat)
      requires |ps| == |lasts| == |ins|
      reads this, pending, pending.spine, pending.Repr, Foot(ins)
    {
      var walked :=
        && triggered == v.Stop? && (v.Yield? ==> errorPage) && (v.Stop? ==> t.upset) && i <= |ins| && largest <= cap
        && (v.Stop? ==> v.status == AnswerOf(spoken, errorPage))
        && Began(s, ps, m)
        && (v.Go? ==> Amid(After(m, ps, lasts, inspecting), Foot(ins)) && seen == After(m, ps, lasts, inspecting).seen)
        && (v.Go? ==> Noted(ins, inspecting, false))
        && (!v.Go? ==> i < |ins| && SeenPartly(After(m, ps[..i], lasts[..i], inspecting).t, t, ps[i], lasts[i], inspecting))
        && Fit(ins, ps, inspecting, stable) && Apart(stable) && stable !! foreign;
      walked
    }

    /** What is known of the loop before buffer n, apart from the state. */
    ghost predicate Known(s: Snap, ins: seq<Buf>, ps: seq<seq<byte>>, lasts: seq<bool>, m: Mid, cur: Mid, outs: seq<Buf>, n: nat)
      requires |ps| == |lasts| == |ins| && n <= |ins|
      reads this`delayed, this`headerOnly, this`inspecting, this`cap
    {
      var known :=
        && Began(s, ps, m) && cur == After(m, ps[..n], lasts[..n], inspecting)
        && Noted(ins, inspecting, cur.t.upset) && Noted(ins[..n], inspecting, false) && ChainSpan(ins) <= cap
        && outs == AllLeft(ins[..n], delayed);
      known
    }

    /** The loop over the chain has passed n buffers and left them as `outs`. */
    ghost predicate Walking(s: Snap, ins: seq<Buf>, ps: seq<seq<byte>>, lasts: seq<bool>, m: Mid, cur: Mid, seen: bool, outs: seq<Buf>, n: nat)
      requires |ps| == |lasts| == |ins| && n <= |ins|
      reads this, pending, pending.spine, pending.Repr, Foot(ins)
    {
      var walking :=
        Known(s, ins, ps, lasts, m, cur, outs, n) && seen == cur.seen && Amid(cur, Foot(ins)) && Fit(ins, ps, inspecting, stable);
      walking
    }

    /** From one turn of the loop to the whole of it so far. */
    lemma WalkOn(s: Snap, ins: seq<Buf>, ps: seq<seq<byte>>, lasts: seq<bool>, m: Mid, cur: Mid, outs: seq<Buf>, n: nat,
                 v: Verdict, b': Buf, seen: bool)
      requires |ps| == |ins| && lasts == Lasts(ins) && n < |ins| && seen == (cur.seen || lasts[n])
      requires Known(s, ins, ps, lasts, m, cur, outs, n) && TurnedTo(ins, ps, cur, n, v, b')
      ensures if v.Go? then Walking(s, ins, ps, lasts, m, Step(cur, ps[n], lasts[n], inspecting), seen, outs + [b'], n + 1)
              else WalkedTo(s, ins, ps, lasts, m, v, seen, n)
    {
      if v.Go? {
        AfterNext(m, ps, lasts, inspecting, n);
        LeftNext(ins, delayed, n);
        NotedNext(ins, inspecting, n);
      }
    }

    lemma EndWalk(s: Snap, ins: seq<Buf>, ps: seq<seq<byte>>, lasts: seq<bool>, m: Mid, cur: Mid, seen: bool, outs: seq<Buf>)
      requires |ps| == |lasts| == |ins| && Walking(s, ins, ps, lasts, m, cur, seen, outs, |ins|)
      ensures WalkedTo(s, ins, ps, lasts, m, Go, seen, |ins|) && outs == AllLeft(ins, delayed)
    {
      assert ps[..|ins|] == ps && lasts[..|ins|] == lasts && ins[..|ins|] == ins;
    }

    method Proceed(ghost s: Snap, ins: seq<Buf>, ghost ps: seq<seq<byte>>, ghost lasts: seq<bool>, ghost m: Mid, ghost cur: Mid,
                   seen: bool, outs: seq<Buf>, n: nat) returns (v: Verdict, seen': bool, outs': seq<Buf>, ghost cur': Mid)
      requires |ps| == |ins| && lasts == Lasts(ins) && n < |ins| && Walking(s, ins, ps, lasts, m, cur, seen, outs, n)
      modifies this`t, this`triggered, this`ruling, this`spoken, this`largest, this`pendingBytes, pending, pending.spine
      ensures if v.Go? then Walking(s, ins, ps, lasts, m, cur', seen', outs', n + 1)
              else WalkedTo(s, ins, ps, lasts, m, v, seen', n)
      ensures fresh(pending.spine - old(pending.spine))
    {
      SpanOfOne(ins, n);
      seen', outs', cur' := seen || ins[n].lastBuf, outs, cur;
      var b';
      v, b' := Turn(ins, n, ps, cur);
      assert Known(s, ins, ps, lasts, m, cur, outs, n);
      WalkOn(s, ins, ps, lasts, m, cur, outs, n, v, b', seen');
      if v.Go? {
        cur' := Step(cur, ps[n], lasts[n], inspecting);
        outs' := outs + [b'];
      }
    }

    /** The loop over the chain. It ends early at buffer i when there is a verdict; `outs` are
        the buffers done, as they are left. */
    method WalkChain(ghost s: Snap, ins: seq<Buf>, ghost ps: seq<seq<byte>>, ghost lasts: seq<bool>, ghost m: Mid)
        returns (v: Verdict, seen: bool, outs: seq<Buf>, ghost i: nat)
      requires |ps| == |ins| && lasts == Lasts(ins) && Walking(s, ins, ps, lasts, m, m, false, [], 0)
      modifies this`t, this`triggered, this`ruling, this`spoken, this`largest, this`pendingBytes, pending, pending.spine
      ensures WalkedTo(s, ins, ps, lasts, m, v, seen, i) && (v.Go? ==> outs == AllLeft(ins, delayed))
      ensures fresh(pending.spine - old(pending.spine))
    {
      seen, outs := false, [];
      ghost var cur := m;
      for n := 0 to |ins|
        invariant Walking(s, ins, ps, lasts, m, cur, seen, outs, n)
        invariant fresh(pending.spine - old(pending.spine))
      {
        v, seen, outs, cur := Proceed(s, ins, ps, lasts, m, cur, seen, outs, n);
        if !v.Go? { return v, seen, outs, n; }
      }
      EndWalk(s, ins, ps, lasts, m, cur, seen, outs);
      return Go, seen, outs, |ins|;
    }

    // ---------- one call ----------

    ghost function Now(): Snap
      requires delayed ==> pending.Closed()
      reads this`t, this`triggered, this`delayed, this`headerOnly, this`inspecting, pending, pending.Repr
    {
      Snap(t, triggered, delayed, headerOnly, inspecting, errorPage, if delayed then Cat(pending.Held()) else [])
    }

    /** Between two calls: the law holds, and what is held is exactly what has been charged to
        the delay, within the cap. */
    ghost predicate Valid()
      reads this, pending, pending.spine, pending.Repr
    {
      var valid :=
        && Apart(stable) && stable !! foreign && (delayed ==> pending.Repr !! foreign) && (!triggered ==> Heard())
        && (delayed ==> ListReady() && pendingBytes == |Cat(pending.Held())| && pendingBytes <= MAX_DELAYED_BODY)
        && ((delayed ==> pending.Closed()) && Law(Now()));
      valid
    }

    /** Before the header filter. */
    ghost predicate Opening()
      reads this, pending, pending.spine
    {
      var opening :=
        && !delayed && pendingBytes == 0 && ruling == 0 && spoken == 0 && t == NO_TRACES.(ended := triggered, upset := triggered)
        && ListReady() && pending.links == [] && Apart(stable) && stable !! foreign && pending.Repr == {};
      opening
    }

    /** Hand a chain of buffers downstream. */
    method NextBodyFilter(ins: seq<Buf>) returns (rc: int)
      requires t.heads == 1
      modifies this`t
      ensures t == old(t).(forwarded := old(t).forwarded + old(Cat(Payloads(ins))))
    {
      t := t.(forwarded := t.forwarded + Cat(Payloads(ins)));
      rc := *;
    }

    /** Hand a linked list of buffers downstream. */
    method NextBodyFilterOn(out: Link?, ghost links: seq<Link>) returns (rc: int)
      requires IsChain(out, links) && t.heads == 1
      modifies this`t
      ensures t == old(t).(forwarded := old(t).forwarded + old(Cat(Payloads(BufsOf(links)))))
    {
      t := t.(forwarded := t.forwarded + Cat(Payloads(BufsOf(links))));
      rc := *;
    }

    /** Hand the response's header set downstream: the first one, and before any body. It may
        be accepted, accepted but not yet written, or fail, and the filters downstream may find
        that the response has no body. */
    method ForwardHeader() returns (ok: bool)
      requires t.heads == 0 && t.forwarded == []
      modifies this`t, this`headerOnly
      ensures t == old(t).(heads := old(t).heads + 1, failed := old(t).failed || !ok)
      ensures old(headerOnly) ==> headerOnly
    {
      ok := *;
      var bodiless: bool := *;
      headerOnly := headerOnly || bodiless;
      t := t.(heads := t.heads + 1, failed := t.failed || !ok);
    }

    /** A later header pass hands on whatever it is given. */
    method ForwardAgain() returns (ok: bool)
      modifies this`t, this`headerOnly
      ensures t == old(t).(heads := old(t).heads + 1, failed := old(t).failed || !ok)
      ensures old(headerOnly) ==> headerOnly
    {
      ok := *;
      var bodiless: bool := *;
      headerOnly := headerOnly || bodiless;
      t := t.(heads := t.heads + 1, failed := t.failed || !ok);
    }

    /** Hand everything held downstream and empty the pending list. */
    method SendPending(resetTail: bool, ghost held: seq<byte>)
      requires ListReady() && t.heads == 1 && Cat(pending.Held()) == held
      modifies this`t, pending`head, pending`tail
      ensures t == old(t).(forwarded := old(t).forwarded + held)
      ensures pending.head == null
    {
      ghost var bufs := BufsOf(pending.links);
      var out := pending.head;
      pending.head := null;
      if resetTail { pending.tail := null; }
      assert Cat(Payloads(bufs)) == held;
      var rc := NextBodyFilterOn(out, pending.links);
    }

    /** Stop delaying: headers, then everything held. An unfinished write of the headers does
        not stop the body; only a failure does. The pending list is left empty unless it fails. */
    method Flush(resetTail: bool, ghost held: seq<byte>) returns (ghost ok: bool)
      requires ListReady() && t.heads == 0 && t.forwarded == [] && Cat(pending.Held()) == held
      modifies this`delayed, this`headerOnly, this`t, pending`head, pending`tail
      ensures !delayed && t == if ok then old(t).(heads := 1, forwarded := held)
                               else old(t).(heads := 1, failed := true, lost := held)
      ensures ok ==> pending.head == null
    {
      delayed := false;
      var sent := ForwardHeader();
      if !sent {
        t := t.(lost := held);
        return false;
      }
      SendPending(resetTail, held);
      return true;
    }

    /** The header filter from the engine's verdict on: replace the response, forward its
        headers, or hold them back until the body has been seen. */
    method DecideOnHeaders(reply: Reply, pret: int, ruled: nat, headerSent: bool, location: bool)
      requires Opening() && !triggered
      modifies this`triggered, this`delayed, this`headerOnly, this`t, this`ruling, this`spoken, pending`head, pending`tail
      ensures (!triggered ==> Heard()) && ruling == if pret == 1 then ruled else 0
      ensures triggered ==> t.answer == AnswerOf(spoken, errorPage)
      ensures triggered <==> !errorPage && Denies(pret, ruled, headerSent)
      ensures t.upset == Denies(pret, ruled, headerSent) && t.overlooked == (!errorPage && TooLate(pret, ruled, headerSent))
      ensures delayed <==> !triggered && !errorPage && !old(headerOnly) && reply.MayWait()
      ensures t == NO_TRACES.(heads := t.heads, failed := t.failed, ended := t.ended, replaced := triggered,
                              answer := if triggered then PollAfter(pret, ruled, headerSent) else 0,
                              upset := t.upset, overlooked := t.overlooked)
      ensures t.ended == (triggered && !(IsRedirect(PollAfter(pret, ruled, headerSent)) && location))
      ensures triggered && !t.ended ==> headerOnly
      ensures t.heads == if delayed || t.ended then 0 else 1
      ensures Apart(stable) && ListReady() && pending.links == []
    {
      if pret == 1 { ruling := ruled; }
      PollMeaning(pret, ruled, headerSent);
      var ret := PollAfter(pret, ruled, headerSent);
      Note(ret > 0);
      t := t.(overlooked := !errorPage && ret < 0);
      if errorPage {
        var ok := ForwardHeader();
        return;
      }
      if ret > 0 {
        triggered := true;
        spoken, t := ret, t.(replaced := true, answer := ret);
        if IsRedirect(ret) && location {
          headerOnly := true;
          var ok := ForwardHeader();
        } else {
          t := t.(ended := true);
        }
        return;
      }
      if reply.MayWait() && !headerOnly {
        delayed := true;
        pending.head, pending.tail := null, null;
        return;
      }
      var ok := ForwardHeader();
    }

    /** Mark every buffer of a chain consumed. */
    method Consume(ins: seq<Buf>) returns (outs: seq<Buf>)
      ensures AllConsumed(ins, outs)
    {
      outs := [];
      for i := 0 to |ins|
        invariant |outs| == i
        invariant forall j :: 0 <= j < i ==> outs[j] == ins[j].(pos := ins[j].last, filePos := ins[j].fileLast)
      {
        outs := outs + [ins[i].(pos := ins[i].last, filePos := ins[i].fileLast)];
      }
    }

    /** Replace the response: a redirect while the headers are still held, otherwise nginx's
        own error response. Whatever was held is dropped. */
    method Finalize(ins: seq<Buf>, status: int, location: bool) returns (outs: seq<Buf>, ghost redirect: bool, ghost sent: bool)
      requires delayed ==> t.heads == 0 && t.forwarded == []
      modifies this`delayed, this`pendingBytes, this`headerOnly, this`t, pending
      ensures !delayed && (redirect <==> old(delayed) && IsRedirect(status) && location)
      ensures redirect ==> AllConsumed(ins, outs)
      ensures headerOnly == (old(headerOnly) || redirect)
      ensures t == old(t).(answer := status, replaced := old(t).replaced || old(delayed), ended := old(t).ended || !redirect,
                           failed := old(t).failed || (redirect && !sent),
                           heads := if redirect then old(t).heads + 1 else old(t).heads)
      ensures old(delayed) ==> pending.head == null && pending.links == [] && pendingBytes == 0
      ensures !old(delayed) ==> unchanged(pending)
      ensures pending.spine <= old(pending.spine)
    {
      var wasDelayed := delayed;
      outs, redirect, sent := ins, false, false;
      t := t.(answer := status);
      if wasDelayed {
        delayed := false;
        pending.Clear();
        pendingBytes := 0;
        t := t.(replaced := true);
      }
      if wasDelayed && IsRedirect(status) && location {
        headerOnly := true;
        outs := Consume(ins);
        var ok := ForwardHeader();
        return outs, true, ok;
      }
      t := t.(ended := true);
    }

    /** A chain arriving after an intervention: swallowed behind a header-only response,
        otherwise passed on, being the replacement's. */
    method AfterIntervention(ins: seq<Buf>, ghost bytes: seq<byte>) returns (outs: seq<Buf>)
      requires Valid() && triggered
      modifies this`t
      ensures Valid() && Now() == Deliver(old(Now()), bytes)
      ensures headerOnly ==> AllConsumed(ins, outs)
    {
      LawSwallow(Now(), bytes);
      outs := ins;
      if headerOnly {
        outs := Consume(ins);
      }
      if !t.ended { t := t.(delivered := t.delivered + bytes); }
    }

    /** The call began at s on a chain carrying `ps`: same flags, the chain delivered. */
    ghost predicate Began(s: Snap, ps: seq<seq<byte>>, m: Mid)
      reads this`delayed, this`headerOnly, this`inspecting
    {
      var began :=
        && !s.triggered && s.delayed == delayed && s.headerOnly == headerOnly
        && s.inspecting == inspecting && s.errorPage == errorPage
        && m.t == s.t.(delivered := s.t.delivered + Cat(ps)) && !m.seen
        && (delayed ==> s.held == Cat(m.held) && m.charged == |s.held|);
      began
    }

    /** What a call leaves behind: with headers held at its start, a pending list emptied by a
        flush or a refusal, and a chain taken over; behind a redirect, a chain consumed. */
    ghost predicate Leaves(wasDelayed: bool, ins: seq<Buf>, outs: seq<Buf>)
      reads this`t, this`triggered, this`delayed, this`pendingBytes, pending`head
    {
      var leaves :=
        && (wasDelayed && triggered ==> t.replaced && pending.head == null && pendingBytes == 0)
        && (wasDelayed && !delayed && !t.failed ==> pending.head == null)
        && (wasDelayed && !triggered ==> outs == AllLeft(ins, true))
        && (triggered && !t.ended ==> AllConsumed(ins, outs));
      leaves
    }

    /** The walk went through: flush, go on holding, or pass the chain on. */
    method Settle(ins: seq<Buf>, seen: bool, ghost outs: seq<Buf>, ghost s: Snap, ghost ps: seq<seq<byte>>, ghost lasts: seq<bool>, ghost m: Mid, ghost location: bool)
      requires |ps| == |lasts| && Fit(ins, ps, inspecting, stable) && Law(s) && Began(s, ps, m)
      requires Amid(After(m, ps, lasts, inspecting), Foot(ins)) && seen == After(m, ps, lasts, inspecting).seen
      requires outs == AllLeft(ins, delayed)
      modifies this`delayed, this`headerOnly, this`t, pending`head, pending`tail
      ensures Valid() && Turned(s, Now(), ps, lasts, AnswerOf(spoken, errorPage), location)
      ensures Leaves(s.delayed, ins, outs) && !triggered
    {
      WentThrough(s, m, ps, lasts, Foot(ins));
      if delayed {
        LawKept(s, ps, lasts);
        ghost var flushed, ok := FlushOrKeep(seen, Kept(s, ps, lasts));
        if flushed { CallFlushed(s, ps, lasts, ok, headerOnly); } else { CallKept(s, ps, lasts); }
        NoRefusal(s, Now(), AnswerOf(spoken, errorPage), location);
      } else {
        Stream(ins, s, ps, lasts, location);
      }
    }

    /** Nothing is held: the chain goes downstream as it came. */
    method Stream(ins: seq<Buf>, ghost s: Snap, ghost ps: seq<seq<byte>>, ghost lasts: seq<bool>, ghost location: bool)
      requires |ps| == |lasts| && Fit(ins, ps, inspecting, stable) && Law(s) && !s.triggered && !s.delayed
      requires !triggered && !delayed && Heard() && Apart(stable) && stable !! foreign
      requires Now() == s.(t := Walked(s.t, ps, lasts, s.inspecting).(delivered := s.t.delivered + Cat(ps)))
      modifies this`t
      ensures Valid() && Turned(s, Now(), ps, lasts, AnswerOf(spoken, errorPage), location)
    {
      LawStreamed(s, ps, lasts);
      var rc := NextBodyFilter(ins);
      assert Now() == Streamed(s, ps, lasts);
      CallStreamed(s, ps, lasts);
      NoRefusal(s, Now(), AnswerOf(spoken, errorPage), location);
    }

    /** All of the chain is held: flush at the end of the body or past the cap. */
    method FlushOrKeep(seen: bool, ghost k: Snap) returns (ghost flushed: bool, ghost ok: bool)
      requires delayed && ListReady() && Apart(stable) && stable !! foreign && Heard() && Now() == k && Law(k)
      requires !seen ==> pendingBytes == |Cat(pending.Held())| && pending.Repr !! foreign
      modifies this`delayed, this`headerOnly, this`t, pending`head, pending`tail
      ensures Valid() && (flushed <==> seen || |k.held| > MAX_DELAYED_BODY)
      ensures Now() == if flushed then Flushed(k, ok, headerOnly) else k
      ensures !delayed && !t.failed ==> pending.head == null
    {
      flushed, ok := seen || pendingBytes > MAX_DELAYED_BODY, false;
      if seen || pendingBytes > MAX_DELAYED_BODY {
        ok := Flush(!seen, k.held);
        LawFlushed(k, ok, headerOnly);
      }
    }

    lemma WentThrough(s: Snap, m: Mid, ps: seq<seq<byte>>, lasts: seq<bool>, foot: set<object>)
      requires |ps| == |lasts| && Law(s) && Began(s, ps, m) && Amid(After(m, ps, lasts, inspecting), foot)
      ensures Apart(stable) && stable !! foreign && !triggered && Heard() && (delayed ==> ListReady())
      ensures Now() == s.(t := Walked(m.t, ps, lasts, inspecting), held := if delayed then s.held + Cat(ps) else [])
      ensures delayed && Count(lasts) == 0 ==> pendingBytes == |Cat(pending.Held())| && pending.Repr !! foreign
      ensures After(m, ps, lasts, inspecting).seen == (Count(lasts) > 0)
    {
      AfterAll(m, ps, lasts, inspecting);
      CatConcat(m.held, ps);
    }

    /** The walk was cut at buffer i. */
    ghost predicate CutAt(s: Snap, ps: seq<seq<byte>>, lasts: seq<bool>, m: Mid, i: nat)
      reads this, pending
    {
      var cut :=
        && |ps| == |lasts| && i < |ps| && Apart(stable) && stable !! foreign
        && SeenPartly(After(m, ps[..i], lasts[..i], inspecting).t, t, ps[i], lasts[i], inspecting);
      cut
    }

    /** A verdict or a failure. */
    method Replace(ins: seq<Buf>, status: int, location: bool, ghost s: Snap, ghost ps: seq<seq<byte>>,
                   ghost lasts: seq<bool>, ghost m: Mid, ghost i: nat) returns (outs: seq<Buf>)
      requires triggered && t.upset && |ps| == |lasts| && Law(s) && Began(s, ps, m) && CutAt(s, ps, lasts, m, i)
      requires status == AnswerOf(spoken, errorPage)
      modifies this`delayed, this`pendingBytes, this`headerOnly, this`t, pending
      ensures Valid() && triggered && Leaves(s.delayed, ins, outs)
      ensures Turned(s, Now(), ps, lasts, AnswerOf(spoken, errorPage), location)
      ensures pending.spine <= old(pending.spine)
    {
      ghost var t1, bytes := t, Cat(ps);
      AfterAll(m, ps[..i], lasts[..i], inspecting);
      CutWalk(m.t, t1, ps, lasts, inspecting, i);
      ghost var redirect, sent;
      outs, redirect, sent := Finalize(ins, status, location);
      ghost var cut := t1.(delivered := s.t.delivered);
      LawReplaced(s, cut, bytes, status, redirect, sent);
      RefusalOf(s, cut, bytes, status, redirect, sent, location);
      assert Now() == Replaced(s, cut, bytes, status, redirect, sent);
    }

    /** An error page is already being streamed: the chain is passed on whole. */
    method PassOn(ins: seq<Buf>, ghost outs: seq<Buf>, ghost s: Snap, ghost ps: seq<seq<byte>>, ghost lasts: seq<bool>, ghost m: Mid, ghost i: nat, ghost location: bool)
      requires !triggered && errorPage && |ps| == |lasts| && Law(s) && Began(s, ps, m) && CutAt(s, ps, lasts, m, i)
      requires Fit(ins, ps, inspecting, stable)
      modifies this`t
      ensures Valid() && Leaves(s.delayed, ins, outs)
      ensures Turned(s, Now(), ps, lasts, AnswerOf(spoken, errorPage), location)
    {
      ghost var t1, bytes := t, Cat(ps);
      AfterAll(m, ps[..i], lasts[..i], inspecting);
      CutWalk(m.t, t1, ps, lasts, inspecting, i);
      var rc := NextBodyFilter(ins);
      LawYielded(s, t1.(delivered := s.t.delivered), bytes);
      NoRefusal(s, Now(), AnswerOf(spoken, errorPage), location);
    }

    /** The filter is between two calls and about to take a chain that carries ps. */
    ghost predicate Facing(ins: seq<Buf>, ps: seq<seq<byte>>)
      reads this, pending, pending.spine, pending.Repr, Foot(ins)
    {
      var facing :=
        && Valid() && !triggered && Fit(ins, ps, inspecting, stable) && Apart(Foot(ins))
        && Noted(ins, inspecting, t.upset);
      facing
    }

    /** Deliver a chain, and set how much of it may be given to the engine at once. */
    ghost method DeliverChain(ins: seq<Buf>, s: Snap, ps: seq<seq<byte>>, lasts: seq<bool>) returns (m: Mid)
      requires Facing(ins, ps) && s == Now() && |ps| == |lasts| == |ins|
      modifies this`t, this`cap
      ensures Began(s, ps, m) && Amid(m, Foot(ins)) && Fit(ins, ps, inspecting, stable) && !m.seen
      ensures m.t.upset == s.t.upset && cap == Max(largest, ChainSpan(ins))
    {
      m := Mid(t.(delivered := t.delivered + Cat(ps)), if delayed then pending.Held() else [],
               if delayed then pendingBytes else 0, false);
      t, cap := m.t, Max(largest, ChainSpan(ins));
      assert delayed ==> ListReady() && pending.Held() == m.held;
    }

    lemma StartWalk(s: Snap, ins: seq<Buf>, ps: seq<seq<byte>>, lasts: seq<bool>, m: Mid)
      requires |ps| == |lasts| == |ins| && Began(s, ps, m) && Amid(m, Foot(ins)) && Fit(ins, ps, inspecting, stable) && !m.seen
      requires Noted(ins, inspecting, m.t.upset) && ChainSpan(ins) <= cap
      ensures Walking(s, ins, ps, lasts, m, m, false, [], 0)
    {
    }

    /** Deliver a chain and walk it. */
    method Enter(ins: seq<Buf>, ghost s: Snap, ghost ps: seq<seq<byte>>, ghost lasts: seq<bool>)
        returns (v: Verdict, seen: bool, outs: seq<Buf>, ghost m: Mid, ghost i: nat)
      requires Facing(ins, ps) && s == Now() && |ps| == |ins| && lasts == Lasts(ins)
      modifies this`t, this`triggered, this`ruling, this`spoken, this`largest, this`cap, this`pendingBytes, pending, pending.spine
      ensures WalkedTo(s, ins, ps, lasts, m, v, seen, i) && (v.Go? ==> outs == AllLeft(ins, delayed))
      ensures fresh(pending.spine - old(pending.spine)) && cap == Max(old(largest), ChainSpan(ins))
    {
      m := DeliverChain(ins, s, ps, lasts);
      StartWalk(s, ins, ps, lasts, m);
      v, seen, outs, i := WalkChain(s, ins, ps, lasts, m);
    }

    /** The walk and what follows it, with no intervention so far. */
    method Process(ins: seq<Buf>, location: bool) returns (outs: seq<Buf>)
      requires Facing(ins, Payloads(ins))
      modifies this`t, this`triggered, this`ruling, this`spoken, this`largest, this`cap, this`pendingBytes, this`delayed, this`headerOnly
      modifies pending, pending.spine
      ensures Valid() && Turned(old(Now()), Now(), old(Payloads(ins)), Lasts(ins), AnswerOf(spoken, errorPage), location)
      ensures Leaves(old(delayed), ins, outs)
      ensures (!triggered && !errorPage ==> Noted(ins, inspecting, false))
      ensures largest <= Max(old(largest), ChainSpan(ins))
      ensures fresh(pending.spine - old(pending.spine))
    {
      ghost var s, ps, lasts := Now(), Payloads(ins), Lasts(ins);
      var v, seen;
      ghost var m, i;
      v, seen, outs, m, i := Enter(ins, s, ps, lasts);
      assert largest <= cap;
      if v.Go? {
        Settle(ins, seen, outs, s, ps, lasts, m, location);
      } else if v.Yield? {
        PassOn(ins, outs, s, ps, lasts, m, i, location);
      } else {
        outs := Replace(ins, v.status, location, s, ps, lasts, m, i);
      }
    }

    /** The header filter's first pass over a response. `added` tells whether the engine took
        the response headers; if not, the response is abandoned. */
    method FirstHeaderPass(reply: Reply, added: bool, pret: int, ruled: nat, headerSent: bool, inspect: bool, location: bool) returns (ok: bool)
      requires Opening() && !triggered
      modifies this`processed, this`inspecting, this`triggered, this`delayed, this`headerOnly, this`t, this`ruling, this`spoken
      modifies pending`head, pending`tail
      ensures ok == added && (ok ==> Valid()) && processed && inspecting == if ok then inspect else old(inspecting)
      ensures t.delivered == [] && t.forwarded == [] && t.evaluated == [] && (!ok ==> t.heads == 0)
      ensures delayed <==> ok && !triggered && !errorPage && !old(headerOnly) && reply.MayWait()
      ensures (triggered <==> ok && !errorPage && Denies(pret, ruled, headerSent)) && t.replaced == triggered
      ensures triggered ==> t.answer == PollAfter(pret, ruled, headerSent) == AnswerOf(spoken, errorPage)
      ensures t.ended == (triggered && !(IsRedirect(t.answer) && location))
      ensures t.upset == (ok && Denies(pret, ruled, headerSent)) && t.overlooked == (ok && !errorPage && TooLate(pret, ruled, headerSent))
    {
      processed := true;
      if !added { return false; }
      inspecting := inspect;
      DecideOnHeaders(reply, pret, ruled, headerSent, location);
      return true;
    }

    /** The header filter. Behind an intervention the headers are the replacement's, and a
        second pass forwards whatever it is given. */
    method HeaderFilter(reply: Reply, added: bool, pret: int, ruled: nat, headerSent: bool, inspect: bool, location: bool) returns (ok: bool)
      requires !processed ==> Opening()
      modifies this`processed, this`inspecting, this`triggered, this`delayed, this`headerOnly, this`t, this`ruling, this`spoken
      modifies pending`head, pending`tail
      ensures !old(processed) && ok ==> Valid()
      ensures !old(processed || triggered) ==> ok == added
      ensures inspecting == if old(triggered || processed) || !ok then old(inspecting) else inspect
      ensures !old(processed) ==> t.delivered == [] && t.forwarded == [] && t.evaluated == []
      ensures !old(processed) ==>
                (delayed <==> ok && !triggered && !errorPage && !old(headerOnly) && reply.delayOn && !reply.head && reply.main
                              && reply.status != 101 && !reply.eventStream)
      ensures !old(processed || triggered) ==> (triggered <==> ok && !errorPage && Denies(pret, ruled, headerSent)) && t.replaced == triggered
      ensures !old(processed || triggered) ==> t.upset == (ok && Denies(pret, ruled, headerSent))
      ensures !old(processed || triggered) ==> t.overlooked == (ok && !errorPage && TooLate(pret, ruled, headerSent))
      ensures !old(processed || triggered) && triggered ==>
                t.answer == PollAfter(pret, ruled, headerSent) == AnswerOf(spoken, errorPage)
      ensures !old(processed || triggered) ==> t.ended == (triggered && !(IsRedirect(t.answer) && location))
      ensures old(triggered) ==> ok && triggered && t == old(t)
      ensures old(processed && !triggered) ==> t == old(t).(heads := old(t).heads + 1, failed := t.failed)
    {
      if triggered {
        return true;
      } else if processed {
        ok := ForwardAgain();
      } else {
        ok := FirstHeaderPass(reply, added, pret, ruled, headerSent, inspect, location);
      }
    }

    /** Remember what the chain's producer may overwrite after the call. */
    ghost method Accept(ins: seq<Buf>)
      requires Valid() && (delayed ==> pending.Repr !! Foot(ins) - stable)
      requires Fit(ins, Payloads(ins), inspecting, stable) && Apart(Foot(ins))
      modifies this`foreign
      ensures Valid() && foreign == old(foreign) + (Foot(ins) - stable) && Now() == old(Now())
      ensures Fit(ins, Payloads(ins), inspecting, stable) && Apart(Foot(ins)) && Payloads(ins) == old(Payloads(ins))
    {
      foreign := foreign + (Foot(ins) - stable);
    }

    /** Note beforehand if the chain cannot be inspected. */
    ghost method Warn(ins: seq<Buf>, ps: seq<seq<byte>>)
      requires Valid() && Fit(ins, ps, inspecting, stable) && Apart(Foot(ins)) && Payloads(ins) == ps
      modifies this`t
      ensures Valid() && Now() == old(Now()).(t := old(t).(upset := t.upset)) && Noted(ins, inspecting, t.upset)
      ensures Noted(ins, inspecting, false) ==> t == old(t)
      ensures Fit(ins, ps, inspecting, stable) && Payloads(ins) == ps
    {
      var s, adverse := Now(), !Noted(ins, inspecting, false);
      LawUpset(s, adverse);
      Note(adverse);
      assert Now() == s.(t := s.t.(upset := s.t.upset || adverse));
    }

    /** The filter. Between calls every object of `foreign` may change. */
    method BodyFilter(ins: seq<Buf>, location: bool) returns (outs: seq<Buf>)
      requires Valid() && Fit(ins, Payloads(ins), inspecting, stable) && Apart(Foot(ins))
      requires delayed ==> pending.Repr !! Foot(ins) - stable
      modifies this`t, this`triggered, this`ruling, this`spoken, this`largest, this`pendingBytes, this`delayed, this`headerOnly, this`foreign, this`cap
      modifies pending, pending.spine
      ensures Valid() && foreign == old(foreign) + (Foot(ins) - stable)
      ensures Turned(old(Now()), Now(), old(Payloads(ins)), Lasts(ins), AnswerOf(spoken, errorPage), location)
      ensures old(triggered) ==> spoken == old(spoken)
      ensures (old(triggered && headerOnly) ==> AllConsumed(ins, outs)) && Leaves(old(delayed), ins, outs)
      ensures largest <= Max(old(largest), ChainSpan(ins))
      ensures fresh(pending.spine - old(pending.spine))
    {
      ghost var s, ps := Now(), Payloads(ins);
      Accept(ins);
      if |ins| == 0 {
        CallNothing(s);
        assert ps == [] && Lasts(ins) == [];
        outs := [];
      } else if triggered {
        CallSwallow(s, ps, Lasts(ins));
        outs := AfterIntervention(ins, Cat(ps));
      } else {
        Warn(ins, ps);
        ghost var s0 := Now();
        outs := Process(ins, location);
        CallNoted(s, s0, Now(), ps, Lasts(ins));
      }
    }
  }

  /** The buffer has been read to its end; nginx may reuse what it points to. */
  ghost predicate Drained(b: Buf) {
    (b.inMemory ==> b.pos == b.last) && (!b.inMemory && b.inFile ==> b.filePos == b.fileLast)
  }

  /** The chain is left with every buffer drained, and otherwise as it came. */
  ghost predicate AllDrained(ins: seq<Buf>, outs: seq<Buf>) {
    |outs| == |ins| && forall i :: 0 <= i < |ins| ==>
      Drained(outs[i]) && outs[i] == ins[i].(pos := outs[i].pos, filePos := outs[i].filePos)
  }

  lemma ConsumedIsDrained(ins: seq<Buf>, outs: seq<Buf>)
    requires AllConsumed(ins, outs)
    ensures AllDrained(ins, outs)
  {
  }

  /** While headers are held a chain is taken over whole. */
  lemma HeldIsDrained(ins: seq<Buf>, outs: seq<Buf>)
    requires outs == AllLeft(ins, true) && Count(Lasts(ins)) == 0
    ensures AllDrained(ins, outs)
  {
    forall i | 0 <= i < |ins| ensures !ins[i].lastBuf {
      NoneLast(Lasts(ins), i);
    }
  }

  lemma {:induction false} NoneLast(lasts: seq<bool>, i: nat)
    requires Count(lasts) == 0 && i < |lasts|
    ensures !lasts[i]
  {
    var n := |lasts| - 1;
    if i < n {
      assert lasts[..n][i] == lasts[i];
      NoneLast(lasts[..n], i);
    }
  }

  ghost predicate AllConsumed(ins: seq<Buf>, outs: seq<Buf>) {
    var all :=
      |outs| == |ins| && forall i :: 0 <= i < |ins| ==> outs[i] == ins[i].(pos := ins[i].last, filePos := ins[i].fileLast);
    all
  }
}
