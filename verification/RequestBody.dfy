/**
The request body on its way to the engine. The handler is entered again and again, by the
phase engine and by the callback that reports the body read, and must submit it once.
 */
module RequestBody {
  import opened Buffers
  import opened Interventions

  const OK := 0
  const ERROR := -1
  const AGAIN := -2
  const DONE := -4
  const DECLINED := -5

  /** A buffer of a body kept in memory. */
  datatype Piece = Piece(data: seq<byte>, last: bool)

  /** r->request_body: absent, in memory, or in a temporary file of `size` bytes. */
  datatype Body = NoBody | InMemory(bufs: seq<Piece>) | InFile(content: seq<byte>, size: int)

  function UpToLast(bufs: seq<Piece>): seq<byte> {
    if bufs == [] then []
    else if bufs[0].last then bufs[0].data
    else bufs[0].data + UpToLast(bufs[1..])
  }

  /** All there is to inspect. */
  function Whole(body: Body): seq<byte> {
    match body
    case NoBody => []
    case InMemory(bufs) => UpToLast(bufs)
    case InFile(content, size) => if 0 <= size <= |content| then content[..size] else content
  }

  /** A buffer up to the one marked last has a length that does not fit an int. */
  predicate TooBig(bufs: seq<Piece>) {
    bufs != [] && (|bufs[0].data| > INT_MAX || (!bufs[0].last && TooBig(bufs[1..])))
  }

  /** The walk over the buffers has passed i of them, which carry `part`; none was the last. */
  ghost predicate Past(bufs: seq<Piece>, i: nat, part: seq<byte>) {
    var past :=
      && i <= |bufs| && UpToLast(bufs) == part + UpToLast(bufs[i..])
      && TooBig(bufs) == TooBig(bufs[i..]) && Widest(bufs[i..]) <= Widest(bufs);
    past
  }

  lemma StartPast(bufs: seq<Piece>)
    ensures Past(bufs, 0, [])
    ensures bufs == [] ==> UpToLast(bufs) == [] && !TooBig(bufs)
  {
    assert bufs[0..] == bufs;
  }

  lemma Join(a: seq<byte>, b: seq<byte>, c: seq<byte>)
    ensures a + b + c == a + (b + c)
  {
  }

  /** It passes one more. */
  lemma GoPast(bufs: seq<Piece>, i: nat, part: seq<byte>)
    requires i < |bufs| && Past(bufs, i, part)
    ensures part + bufs[i].data <= UpToLast(bufs) && part <= UpToLast(bufs) && |bufs[i].data| <= Widest(bufs)
    ensures bufs[i].last ==> UpToLast(bufs) == part + bufs[i].data && (TooBig(bufs) <==> |bufs[i].data| > INT_MAX)
    ensures |bufs[i].data| > INT_MAX ==> TooBig(bufs)
    ensures !bufs[i].last && |bufs[i].data| <= INT_MAX ==> Past(bufs, i + 1, part + bufs[i].data)
    ensures !bufs[i].last && |bufs[i].data| <= INT_MAX && i + 1 == |bufs| ==> UpToLast(bufs) == part + bufs[i].data && !TooBig(bufs)
  {
    TooBigNext(bufs, i);
    assert bufs[i..][0] == bufs[i] && bufs[i..][1..] == bufs[i + 1..];
    if !bufs[i].last {
      assert part + (bufs[i].data + UpToLast(bufs[i + 1..])) == part + bufs[i].data + UpToLast(bufs[i + 1..]);
    }
  }

  lemma TooBigNext(bufs: seq<Piece>, i: nat)
    requires i < |bufs|
    ensures TooBig(bufs[i..]) <==> |bufs[i].data| > INT_MAX || (!bufs[i].last && TooBig(bufs[i + 1..]))
  {
    assert bufs[i..][1..] == bufs[i + 1..];
  }

  /** A body that cannot be inspected. */
  predicate Unfit(body: Body) {
    match body
    case NoBody => false
    case InMemory(bufs) => TooBig(bufs)
    case InFile(_, size) => size < 0
  }

  /** The longest buffer up to the one marked last. */
  function Widest(bufs: seq<Piece>): nat {
    if bufs == [] then 0 else Max(|bufs[0].data|, if bufs[0].last then 0 else Widest(bufs[1..]))
  }

  /** The most of a body that the engine is given at once. */
  function BodySpan(body: Body): nat {
    match body
    case NoBody => 0
    case InMemory(bufs) => Widest(bufs)
    case InFile(_, _) => FILE_CHUNK
  }

  // ---------- which body is submitted ----------

  /** nginx's answer when it is asked to read the body. */
  datatype Read = Read(rc: int, body: Body)

  /** The handler's flags, the body nginx has last reported, and the one submitted, if any. */
  datatype Reader = Reader(requested: bool, waiting: bool, body: Body, submitted: bool, taken: Body)

  const UNREAD := Reader(false, false, NoBody, false, NoBody)

  /** The body is submitted the first time the phases get past reading it. */
  function Resumed(r: Reader): Reader {
    if r.submitted || r.body.NoBody? then r else r.(submitted := true, taken := r.body)
  }

  predicate Fails(read: Read) {
    read.rc == ERROR || read.rc >= 300
  }

  function Entered(r: Reader, read: Read): Reader {
    if r.waiting then r
    else if r.requested then Resumed(r)
    else
      var asked := r.(requested := true, body := read.body);
      if Fails(read) then asked
      else if read.rc == AGAIN then asked.(waiting := true)
      else Resumed(asked)
  }

  function Reported(r: Reader, body: Body): Reader {
    if r.waiting then Resumed(r.(body := body, waiting := false)) else r.(body := body)
  }

  /** An entry by the phase engine, or nginx's report that the body has been read. */
  datatype Event = Enter(read: Read) | BodyRead(reported: Body)
  {
    function Body(): Body {
      if Enter? then read.body else reported
    }
  }

  /** One event; an idle reader never asks for the body. */
  function Moved(r: Reader, e: Event, idle: bool): Reader {
    match e
    case Enter(read) => if idle then r else Entered(r, read)
    case BodyRead(body) => Reported(r, body)
  }

  /** The reader after a run. */
  function Follow(events: seq<Event>, idle: bool): Reader {
    if events == [] then UNREAD
    else
      var n := |events| - 1;
      var r := Follow(events[..n], idle);
      Moved(r, events[n], idle)
  }

  /** What the handler, or the callback if it resumes, answers as long as nothing is refused. */
  function Reply(r: Reader, e: Event, idle: bool): int {
    match e
    case Enter(read) =>
      if idle then DECLINED
      else if Entered(r, read).waiting then DONE
      else if !r.requested && Fails(read) then read.rc
      else DECLINED
    case BodyRead(_) => if r.waiting then DECLINED else OK
  }

  /** The event at which the body is submitted. */
  predicate Submits(r: Reader, e: Event, idle: bool) {
    !r.submitted && Moved(r, e, idle).submitted
  }

  ghost predicate SubmitsAt(events: seq<Event>, i: nat, idle: bool)
    requires i < |events|
  {
    Submits(Follow(events[..i], idle), events[i], idle)
  }

  /** The answer to event i: the usual one, or the refusal, if there is one, at the event at
      which the body is submitted. */
  ghost function AnswerAt(events: seq<Event>, i: nat, idle: bool, refused: bool, refusal: int): int
    requires i < |events|
  {
    if refused && SubmitsAt(events, i, idle) then refusal else Reply(Follow(events[..i], idle), events[i], idle)
  }

  ghost predicate AnsweredUpTo(events: seq<Event>, answers: seq<int>, n: nat, idle: bool, refused: bool, refusal: int) {
    var answered :=
      |answers| == n <= |events| && forall i :: 0 <= i < n ==> answers[i] == AnswerAt(events, i, idle, refused, refusal);
    answered
  }

  lemma SameAnswer(events: seq<Event>, i: nat, idle: bool, refused: bool, refused': bool, refusal: int, refusal': int)
    requires i < |events| && ((refused' == refused && refusal' == refusal) || !SubmitsAt(events, i, idle))
    ensures AnswerAt(events, i, idle, refused, refusal) == AnswerAt(events, i, idle, refused', refusal')
  {
  }

  lemma AnswerNext(events: seq<Event>, answers: seq<int>, n: nat, idle: bool, refused: bool, refused': bool, refusal: int, refusal': int, answer: int)
    requires AnsweredUpTo(events, answers, n, idle, refused, refusal) && n < |events|
    requires (refused' == refused && refusal' == refusal) || forall i :: 0 <= i < n ==> !SubmitsAt(events, i, idle)
    requires answer == AnswerAt(events, n, idle, refused', refusal')
    ensures AnsweredUpTo(events, answers + [answer], n + 1, idle, refused', refusal')
  {
    forall i | 0 <= i < n
      ensures AnswerAt(events, i, idle, refused, refusal) == AnswerAt(events, i, idle, refused', refusal')
    {
      SameAnswer(events, i, idle, refused, refused', refusal, refusal');
    }
  }

  lemma StaysSubmitted(r: Reader, e: Event, idle: bool)
    ensures r.submitted ==> Moved(r, e, idle).submitted
  {
  }

  /** As long as no body has been submitted, no event so far has submitted one. */
  lemma {:induction false} NoneSubmits(events: seq<Event>, n: nat, idle: bool)
    requires n <= |events| && !Follow(events[..n], idle).submitted
    ensures forall i :: 0 <= i < n ==> !SubmitsAt(events, i, idle)
  {
    if n > 0 {
      var r := Follow(events[..n - 1], idle);
      FollowNext(events, n - 1, idle);
      StaysSubmitted(r, events[n - 1], idle);
      NoneSubmits(events, n - 1, idle);
      assert !SubmitsAt(events, n - 1, idle);
    }
  }

  lemma FollowNext(events: seq<Event>, n: nat, idle: bool)
    requires n < |events|
    ensures Follow(events[..n + 1], idle) == Moved(Follow(events[..n], idle), events[n], idle)
  {
    assert events[..n + 1][..n] == events[..n];
  }

  /** The body submitted is one that nginx reported during the run. */
  lemma {:induction false} TakenWasReported(events: seq<Event>, idle: bool)
    ensures var r := Follow(events, idle);
            && (r.body.NoBody? || exists i :: 0 <= i < |events| && events[i].Body() == r.body)
            && (r.submitted ==> !r.taken.NoBody? && exists i :: 0 <= i < |events| && events[i].Body() == r.taken)
  {
    if events != [] {
      var n := |events| - 1;
      TakenWasReported(events[..n], idle);
      assert forall i :: 0 <= i < n ==> events[..n][i] == events[i];
      assert events[n].Body() == events[n].Body();
    }
  }

  /** Once a body has been submitted nothing that follows changes which. */
  lemma {:induction false} TakenStays(events: seq<Event>, n: nat, idle: bool)
    requires n <= |events| && Follow(events[..n], idle).submitted
    ensures Follow(events, idle).submitted && Follow(events, idle).taken == Follow(events[..n], idle).taken
    decreases |events|
  {
    if n < |events| {
      var last := |events| - 1;
      assert events[..last][..n] == events[..n];
      TakenStays(events[..last], n, idle);
    } else {
      assert events[..n] == events;
    }
  }

  predicate AllEnter(events: seq<Event>) {
    forall i :: 0 <= i < |events| ==> events[i].Enter?
  }

  /** While nginx is still reading, however often the handler is entered, nothing is submitted
      and it answers that it waits; what nginx then reports is submitted at once. */
  lemma {:induction false} WaitsForTheBody(first: Read, events: seq<Event>, body: Body)
    requires first.rc == AGAIN && AllEnter(events)
    ensures var r := Follow([Enter(first)] + events, false); r.waiting && !r.submitted
    ensures forall e: Event :: e.Enter? ==> Reply(Follow([Enter(first)] + events, false), e, false) == DONE
    ensures !body.NoBody? ==>
              var r := Moved(Follow([Enter(first)] + events, false), BodyRead(body), false);
              r.submitted && r.taken == body && !r.waiting
  {
    var all := [Enter(first)] + events;
    if events == [] {
      assert all[..0] == [];
    } else {
      var n := |events| - 1;
      assert all[..|all| - 1] == [Enter(first)] + events[..n] && all[|all| - 1] == events[n];
      WaitsForTheBody(first, events[..n], body);
    }
  }

  class RequestCtx {
    var triggered: bool
    var waiting: bool             // waiting_more_body
    var requested: bool           // body_requested
    var submitted: bool           // body_submitted
    var body: Body
    const errorPage: bool
    const access: bool            // the engine wants the request body
    ghost var taken: Body         // the body as it was when it was submitted
    ghost var appended: seq<byte>
    ghost var evaluated: seq<seq<byte>>  // what the engine had at each phase-2 run
    ghost var upset: bool         // a verdict, an error or a failure, or a body that cannot be inspected
    var ruling: nat               // the engine: what it holds against the request, 0 for nothing
    ghost var spoken: int         // what the last poll said that was not silent
    ghost var largest: nat        // largest single append to the engine

    /** What every entry keeps. */
    ghost predicate Law()
      reads this
    {
      var law :=
        && appended <= Whole(taken)
        && (access ==> evaluated == [] || (evaluated == [Whole(taken)] && appended == Whole(taken)))
        && (!submitted ==> appended == [])
        && (access && !submitted ==> evaluated == [])
        && (!access ==> !submitted && !requested && !waiting && forall e :: e in evaluated ==> e == [])
        && (submitted && !triggered && !errorPage ==> evaluated == [Whole(taken)])
        && (triggered ==> upset) && (upset && !errorPage ==> triggered) && (Blocks(ruling) ==> upset)
        && (!triggered && !errorPage ==> spoken == 0) && largest <= BodySpan(taken)
        && (waiting ==> !submitted && !triggered) && (submitted || waiting ==> requested)
        && (triggered && !submitted ==> !requested || !access) && (!submitted ==> taken == NoBody);
      law
    }

    ghost function View(): Reader
      reads this
    {
      Reader(requested, waiting, body, submitted, taken)
    }

    constructor (triggered: bool, errorPage: bool, access: bool)
      ensures Law() && View() == UNREAD && this.triggered == triggered
      ensures this.errorPage == errorPage && this.access == access
    {
      this.triggered, this.errorPage, this.access := triggered, errorPage, access;
      waiting, requested, submitted, body := false, false, false, NoBody;
      taken, appended, evaluated, upset, largest, ruling, spoken := NoBody, [], [], triggered, 0, 0, 0;
    }

    /** Fetch the engine's ruling; it may then forget it. */
    method Poll(headerSent: bool) returns (ret: int)
      modifies this`upset, this`ruling, this`spoken
      ensures ret == Fetched(old(ruling), headerSent) && upset == (old(upset) || ret != 0)
      ensures spoken == if ret != 0 then ret else old(spoken)
      ensures ruling == old(ruling) || ruling == 0
    {
      ret := Fetched(ruling, headerSent);
      if ret != 0 { spoken := ret; }
      upset := upset || ret != 0;
      var forget: bool := *;
      if forget { ruling := 0; }
    }

    /** Nothing has been refused, and outside an error page no poll has spoken. */
    ghost predicate Undecided()
      reads this`triggered, this`upset, this`ruling, this`spoken
    {
      var undecided := !triggered && (Blocks(ruling) ==> upset) && (!errorPage ==> spoken == 0);
      undecided
    }

    /** The request has been refused with the status a poll gave, or with 500. */
    ghost predicate Refused(status: int)
      reads this`triggered, this`spoken
    {
      triggered && status == AnswerOf(spoken, errorPage)
    }

    /** Poll wherever the response headers stand, and turn the result into an answer. */
    method Check() returns (status: int)
      requires Undecided()
      modifies this`triggered, this`upset, this`ruling, this`spoken
      ensures status == OK ==> Undecided() && !Blocks(ruling) && !Blocks(old(ruling)) && upset == old(upset)
      ensures status == DECLINED ==> errorPage && !triggered
      ensures status != OK && status != DECLINED ==> Refused(status)
      ensures (old(upset) || triggered ==> upset) && (Blocks(ruling) ==> upset)
    {
      var headerSent: bool := *;
      FetchedMeaning(ruling, headerSent);
      var ret := Poll(headerSent);
      status := AfterPoll(ret);
    }

    /** Turn a verdict into the handler's answer; OK means go on. */
    method AfterPoll(ret: int) returns (status: int)
      modifies this`triggered
      ensures status == if errorPage then DECLINED else if ret < 0 then 500 else if ret > 0 then ret else OK
      ensures triggered == (old(triggered) || (!errorPage && ret != 0))
    {
      if errorPage { return DECLINED; }
      if ret < 0 {
        triggered := true;
        return 500;
      }
      if ret > 0 {
        triggered := true;
        return ret;
      }
      return OK;
    }

    /** Give the engine some body. It may refuse it, or take it and rule against the request; a
        ruling that blocks stays until it is fetched. */
    method Append(data: seq<byte>) returns (rc: int)
      requires |data| <= INT_MAX
      modifies this`appended, this`upset, this`ruling, this`largest
      ensures appended == if rc == 0 then old(appended) + data else old(appended)
      ensures upset == (old(upset) || rc != 0 || Blocks(ruling))
      ensures Blocks(old(ruling)) || rc != 0 ==> ruling == old(ruling)
      ensures largest == Max(old(largest), |data|)
    {
      rc := *;
      largest := Max(largest, |data|);
      if rc == 0 {
        if !Blocks(ruling) { ruling := *; }
        appended := appended + data;
      }
      upset := upset || rc != 0 || Blocks(ruling);
    }

    /** Run the request-body rules. The engine may fail, or report a ruling. */
    method Evaluate() returns (pret: int)
      modifies this`evaluated, this`upset, this`ruling
      ensures evaluated == old(evaluated) + [appended]
      ensures upset == (old(upset) || pret < 0 || (pret == 1 && Blocks(ruling)))
      ensures pret != 1 ==> ruling == old(ruling)
    {
      pret := *;
      if pret == 1 { ruling := *; }
      evaluated := evaluated + [appended];
      upset := upset || pret < 0 || (pret == 1 && Blocks(ruling));
    }

    method OpenFile() returns (ok: bool)
      modifies this`upset
      ensures upset == (old(upset) || !ok)
    {
      ok := *;
      upset := upset || !ok;
    }

    /** One read; 0 for an error or an early end of file. */
    method ReadChunk(content: seq<byte>, size: nat, offset: nat) returns (n: nat, data: seq<byte>)
      requires offset <= |content|
      modifies this`upset
      ensures n <= size && offset + n <= |content| && data == content[offset..offset + n]
      ensures upset == (old(upset) || n == 0)
    {
      var got;
      got, data := ReadAt(content, size, offset);
      n := if got <= 0 then 0 else got;
      upset := upset || n == 0;
    }

    /** Run the phase-2 rules on what the engine has been given. */
    method Phase2() returns (status: int)
      requires Undecided()
      modifies this`evaluated, this`triggered, this`upset, this`ruling, this`spoken
      ensures evaluated == old(evaluated) + [appended]
      ensures if status == DECLINED then !triggered && (!errorPage ==> spoken == 0) else Refused(status)
      ensures (old(upset) || triggered ==> upset) && (upset && !errorPage ==> triggered || old(upset))
      ensures Blocks(ruling) ==> upset
    {
      var pret := Evaluate();
      if pret < 0 {
        triggered := true;
        return 500;
      }
      status := OK;
      if pret == 1 { status := Check(); }
      if status == OK { status := DECLINED; }
    }

    /** Submit a body kept in a file, a chunk at a time, looking for a verdict after every
        chunk but the last. Success means that all of it was appended; anything else leaves a
        proper part of it, with the flag set unless an error page is being made. */
    method AppendFile(content: seq<byte>, size: int) returns (rc: int, ghost k: nat)
      requires Undecided()
      modifies this`appended, this`triggered, this`upset, this`ruling, this`spoken, this`largest
      ensures k <= |content| && appended == old(appended) + content[..k]
      ensures rc == OK ==> 0 <= size == k && Undecided() && upset == (old(upset) || Blocks(ruling))
      ensures rc != OK ==> k < size || size < 0
      ensures rc == DECLINED ==> errorPage && !triggered
      ensures rc != OK && rc != DECLINED ==> Refused(rc) && (upset || size < 0)
      ensures (old(upset) ==> upset) && (Blocks(ruling) ==> upset)
      ensures largest <= Max(old(largest), 65536)
    {
      k := 0;
      if size == 0 { return OK, 0; }
      if size < 0 {
        triggered := true;
        return 500, 0;
      }
      var open := OpenFile();
      if !open {
        triggered := true;
        return 500, 0;
      }
      rc, k := AppendChunks(content, size);
      if rc != OK && rc != DECLINED { triggered := true; }
    }

    /** One read and one append; 0 if either fails. */
    method AppendChunk(content: seq<byte>, offset: nat, size: nat) returns (n: nat)
      requires offset < size && offset <= |content|
      modifies this`appended, this`upset, this`ruling, this`largest
      ensures offset + n <= size && offset + n <= |content| && largest <= Max(old(largest), FILE_CHUNK)
      ensures appended == old(appended) + content[offset..offset + n]
      ensures if n == 0 then upset && ruling == old(ruling) else upset == (old(upset) || Blocks(ruling))
    {
      var chunk := if size - offset > FILE_CHUNK then FILE_CHUNK else size - offset;
      var got, data := ReadChunk(content, chunk, offset);
      if got == 0 { return 0; }
      var rc := Append(data);
      if rc != 0 { return 0; }
      n := got;
    }

    method AppendChunks(content: seq<byte>, size: nat) returns (rc: int, ghost k: nat)
      requires Undecided() && size > 0
      modifies this`appended, this`triggered, this`upset, this`ruling, this`spoken, this`largest
      ensures k <= |content| && appended == old(appended) + content[..k]
      ensures rc == OK ==> size == k && Undecided() && upset == (old(upset) || Blocks(ruling))
      ensures rc != OK ==> k < size
      ensures rc == DECLINED ==> errorPage && !triggered
      ensures rc != OK && rc != DECLINED ==> upset && rc == AnswerOf(spoken, errorPage)
      ensures (old(upset) ==> upset) && (Blocks(ruling) ==> upset)
      ensures largest <= Max(old(largest), FILE_CHUNK)
    {
      var offset := 0;
      ghost var before := appended;
      while offset < size
        invariant offset <= size && offset <= |content| && appended == before + content[..offset]
        invariant Undecided() && upset == (old(upset) || Blocks(ruling)) && (offset < size ==> upset == old(upset))
        invariant largest <= Max(old(largest), FILE_CHUNK)
      {
        var n := AppendChunk(content, offset, size);
        if n == 0 { return 500, offset; }
        assert content[..offset + n] == content[..offset] + content[offset..offset + n];
        offset := offset + n;
        if offset < size {
          rc := Check();
          if rc != OK { return rc, offset; }
        }
      }
      return OK, offset;
    }

    /** The buffers have been given to the engine as far as `part` goes: all of them up to the last
        on success; otherwise the request is refused, unless an error page is being made. */
    ghost predicate TakenUp(bufs: seq<Piece>, rc: int, part: seq<byte>, wasUpset: bool)
      reads this`triggered, this`upset, this`ruling, this`spoken
    {
      var taken :=
        && part <= UpToLast(bufs)
        && (rc == OK ==> part == UpToLast(bufs) && Undecided() && upset == (wasUpset || Blocks(ruling)) && !TooBig(bufs))
        && (rc == DECLINED ==> errorPage && !triggered)
        && (rc != OK && rc != DECLINED ==> Refused(rc) && (upset || TooBig(bufs)))
        && (wasUpset ==> upset) && (Blocks(ruling) ==> upset);
      taken
    }

    /** Submit a body kept in memory, up to the buffer marked last. */
    method AppendBuffers(bufs: seq<Piece>) returns (rc: int, ghost part: seq<byte>)
      requires Undecided()
      modifies this`appended, this`triggered, this`upset, this`ruling, this`spoken, this`largest
      ensures appended == old(appended) + part && TakenUp(bufs, rc, part, old(upset))
      ensures largest <= Max(old(largest), Widest(bufs))
    {
      part := [];
      var i := 0;
      ghost var before := appended;
      StartPast(bufs);
      while i < |bufs|
        invariant Past(bufs, i, part) && appended == before + part
        invariant Undecided() && upset == old(upset) && largest <= Max(old(largest), Widest(bufs))
      {
        ghost var got;
        rc, got := NextPiece(bufs[i]);
        GoPast(bufs, i, part);
        if got {
          Join(before, part, bufs[i].data);
          part := part + bufs[i].data;
        }
        if rc != OK { return; }
        if bufs[i].last { break; }
        i := i + 1;
      }
      rc := OK;
    }

    /** One buffer, and a look for a verdict unless it is the last. */
    method NextPiece(b: Piece) returns (rc: int, ghost got: bool)
      requires Undecided()
      modifies this`appended, this`triggered, this`upset, this`ruling, this`spoken, this`largest
      ensures appended == if got then old(appended) + b.data else old(appended)
      ensures rc == OK ==> got && Undecided() && |b.data| <= INT_MAX
      ensures rc == OK ==> upset == if b.last then old(upset) || Blocks(ruling) else old(upset)
      ensures rc == DECLINED ==> errorPage && !triggered
      ensures rc != OK && rc != DECLINED ==> Refused(rc) && (upset || |b.data| > INT_MAX)
      ensures (old(upset) ==> upset) && (Blocks(ruling) ==> upset)
      ensures largest <= Max(old(largest), |b.data|)
    {
      rc := AppendPiece(b);
      if rc != OK { return rc, false; }
      if !b.last {
        rc := Check();
      }
      got := true;
    }

    method AppendPiece(b: Piece) returns (rc: int)
      requires Undecided()
      modifies this`appended, this`triggered, this`upset, this`ruling, this`largest
      ensures rc == OK || (rc == 500 && Refused(rc) && (upset || |b.data| > INT_MAX))
      ensures rc == OK ==> appended == old(appended) + b.data && Undecided() && |b.data| <= INT_MAX
      ensures rc == OK ==> upset == (old(upset) || Blocks(ruling))
      ensures (old(upset) ==> upset) && (Blocks(ruling) ==> upset)
      ensures rc != OK ==> appended == old(appended)
      ensures largest <= Max(old(largest), |b.data|)
    {
      if |b.data| > INT_MAX {
        triggered := true;
        return 500;
      }
      if |b.data| > 0 {
        rc := Append(b.data);
        if rc != 0 {
          triggered := true;
          return 500;
        }
      }
      return OK;
    }

    /** Append the body, whichever way it is kept. */
    method AppendBody() returns (rc: int)
      requires Undecided() && appended == [] && !body.NoBody?
      modifies this`appended, this`triggered, this`upset, this`ruling, this`spoken, this`largest
      ensures appended <= Whole(body)
      ensures rc == OK ==> appended == Whole(body) && Undecided() && upset == (old(upset) || Blocks(ruling)) && !Unfit(body)
      ensures rc == DECLINED ==> errorPage && !triggered
      ensures rc != OK && rc != DECLINED ==> Refused(rc) && (upset || Unfit(body))
      ensures (old(upset) ==> upset) && (Blocks(ruling) ==> upset)
      ensures largest <= Max(old(largest), BodySpan(body))
    {
      match body {
        case InFile(content, size) =>
          ghost var k;
          rc, k := AppendFile(content, size);
        case InMemory(bufs) =>
          ghost var part;
          rc, part := AppendBuffers(bufs);
      }
    }

    /** The body is there and has not been submitted: append it, look for a verdict, and run
        phase 2. The flag goes up first, so that no later entry does it again. */
    method Submit() returns (status: int)
      requires Law() && access && requested && !triggered && !waiting && !submitted && !body.NoBody?
      modifies this
      ensures Law() && submitted && taken == body == old(body)
      ensures if status == DECLINED then !triggered else Refused(status)
    {
      submitted, taken, upset := true, body, upset || Unfit(body);
      status := AppendBody();
      if status != OK { return; }
      status := Check();
      if status != OK { return; }
      status := Phase2();
    }

    /** The handler. `read` is what nginx answers if it is asked to read the body. */
    method Handler(read: Read) returns (status: int)
      requires Law()
      modifies this
      ensures Law()
      ensures View() == if !access || old(triggered && !submitted) then old(View()) else Entered(old(View()), read)
      ensures !old(submitted) && submitted ==> taken == body
      ensures old(triggered) ==> spoken == old(spoken)
      ensures !triggered && !errorPage ==> ruling == 0 || ruling == 200
      ensures status ==
                if old(triggered) then DECLINED
                else if triggered then (if spoken > 0 && !errorPage then spoken else 500)
                else if waiting then DONE
                else if access && !old(requested) && (read.rc == ERROR || read.rc >= 300) then read.rc
                else DECLINED
      ensures status == DECLINED && access && !errorPage && !triggered ==>
                body.NoBody? || (submitted && evaluated == [Whole(taken)])
      ensures old(submitted) ==> status == DECLINED && appended == old(appended) && evaluated == old(evaluated)
      ensures old(submitted) || (!submitted && access) ==> triggered == old(triggered)
      ensures old(triggered) ==> triggered
    {
      if triggered { return DECLINED; }
      if waiting { return DONE; }
      if !requested {
        if !access {
          status := Phase2();
          return;
        }
        requested := true;
        body := read.body;
        if read.rc == ERROR || read.rc >= 300 { return read.rc; }
        if read.rc == AGAIN {
          waiting := true;
          return DONE;
        }
      }
      if !waiting && !submitted {
        if body.NoBody? { return DECLINED; }
        status := Submit();
        return;
      }
      return DECLINED;
    }

    /** nginx reports that the body has been read, and resumes the phases if they waited, with
        the answer `status`. The read is not asked for again. */
    method RequestRead() returns (status: int)
      requires Law()
      modifies this
      ensures Law() && View() == Reported(old(View()), old(body))
      ensures status == if !old(waiting) then OK else if triggered then AnswerOf(spoken, errorPage) else DECLINED
      ensures !triggered && !errorPage ==> ruling == 0 || ruling == 200
      ensures old(triggered) ==> spoken == old(spoken)
      ensures old(submitted) ==> appended == old(appended) && evaluated == old(evaluated)
      ensures !old(waiting) ==> appended == old(appended) && evaluated == old(evaluated) && triggered == old(triggered)
      ensures old(submitted) || !submitted ==> triggered == old(triggered)
      ensures old(triggered) ==> triggered
    {
      status := OK;
      if waiting {
        waiting := false;
        status := Handler(Read(ERROR, body));
      }
    }
  }

  /** One event of a run. */
  method Answer(ctx: RequestCtx, e: Event) returns (status: int)
    requires ctx.Law()
    modifies ctx
    ensures ctx.Law() && ctx.View() == Moved(old(ctx.View()), e, !ctx.access || old(ctx.triggered && !ctx.submitted))
    ensures old(ctx.triggered) ==> ctx.triggered && ctx.spoken == old(ctx.spoken)
    ensures old(ctx.submitted) || (!ctx.submitted && ctx.access) ==> ctx.triggered == old(ctx.triggered)
    ensures status == if !old(ctx.triggered) && ctx.triggered then AnswerOf(ctx.spoken, ctx.errorPage)
                      else Reply(old(ctx.View()), e, !ctx.access || old(ctx.triggered && !ctx.submitted))
  {
    match e {
      case Enter(read) =>
        status := ctx.Handler(read);
      case BodyRead(body) =>
        ctx.body := body;
        status := ctx.RequestRead();
    }
  }

  /** Any interleaving of entries and read callbacks. Which body is submitted is a matter of the
      events alone. If one was and nothing was refused, phase 2 ran exactly once, on the whole
      of it, and found nothing. */
  method Serve(events: seq<Event>, triggered: bool, errorPage: bool, access: bool) returns (ctx: RequestCtx, answers: seq<int>)
    ensures fresh(ctx) && ctx.Law() && ctx.errorPage == errorPage && ctx.access == access
    ensures ctx.View() == Follow(events, triggered || !access)
    ensures ctx.submitted && !ctx.triggered && !errorPage ==>
              ctx.evaluated == [Whole(ctx.taken)] && ctx.appended == Whole(ctx.taken)
    ensures ctx.appended <= Whole(ctx.taken) && (access ==> |ctx.evaluated| <= 1)
    ensures !errorPage ==> (ctx.triggered <==> ctx.upset)
    ensures access && !ctx.submitted ==> ctx.triggered == triggered
    ensures !ctx.triggered && !errorPage ==> ctx.ruling == 0 || ctx.ruling == 200
    ensures access ==>
              AnsweredUpTo(events, answers, |events|, triggered, ctx.triggered && !triggered, AnswerOf(ctx.spoken, errorPage))
    ensures ctx.triggered && !triggered ==> AnswerOf(ctx.spoken, errorPage) in answers
    ensures ctx.largest <= BodySpan(ctx.taken)
  {
    ctx := new RequestCtx(triggered, errorPage, access);
    answers := [];
    ghost var idle := triggered || !access;
    for i := 0 to |events|
      invariant ctx.Law() && ctx.View() == Follow(events[..i], idle) && |answers| == i
      invariant access && !ctx.submitted ==> ctx.triggered == triggered
      invariant triggered ==> ctx.triggered
      invariant access ==> AnsweredUpTo(events, answers, i, idle, ctx.triggered && !triggered, AnswerOf(ctx.spoken, errorPage))
      invariant ctx.triggered && !triggered ==> AnswerOf(ctx.spoken, errorPage) in answers
    {
      ghost var refused, refusal := ctx.triggered && !triggered, AnswerOf(ctx.spoken, errorPage);
      if !ctx.submitted { NoneSubmits(events, i, idle); }
      FollowNext(events, i, idle);
      var status := Answer(ctx, events[i]);
      if access {
        AnswerNext(events, answers, i, idle, refused, ctx.triggered && !triggered, refusal, AnswerOf(ctx.spoken, errorPage), status);
      }
      answers := answers + [status];
    }
    assert events[..|events|] == events;
  }
}
