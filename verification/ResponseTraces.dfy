/**
What a response has been through, as sequences of bytes, and the law every call of
the body filter keeps.
 */
module ResponseTraces {
  import opened Buffers
  import opened Interventions

  const MAX_DELAYED_BODY: nat := 1024 * 1024

  datatype Traces = Traces(
    delivered: seq<byte>,       // origin body handed to the filter
    appended: seq<byte>,        // body given to the engine for inspection
    forwarded: seq<byte>,       // origin body handed downstream
    lost: seq<byte>,            // held body abandoned when forwarding the headers failed
    evaluated: seq<seq<byte>>,  // what the engine had been given at each phase-4 run
    heads: nat,                 // header sets handed downstream, original or redirect
    failed: bool,               // handing on a header set failed
    upset: bool,                // a verdict, an error, a failed read or allocation, or a buffer that cannot be inspected
    answer: int,                // the status the response was refused with, 0 for none
    overlooked: bool,           // the verdict on the headers came too late to be sent, which the source passes over
    ended: bool,                // nginx replaced the response; what follows is not the origin's
    replaced: bool)             // an intervention or failure was handled before the headers went out

  const NO_TRACES := Traces([], [], [], [], [], 0, false, false, 0, false, false, false)

  /** The filter between two calls. `held` is what the pending list carries. */
  datatype Snap = Snap(
    t: Traces, triggered: bool, delayed: bool, headerOnly: bool,
    inspecting: bool, errorPage: bool, held: seq<byte>)

  /** The law. Nothing is refused without a reason. Without an intervention or failure no byte
      is lost, duplicated or reordered; with inspection on, nothing is forwarded that the engine
      has not been given; while headers are held nothing has gone downstream, and a response
      replaced in that state never sends an origin byte. */
  ghost predicate Law(s: Snap) {
    var Snap(t, triggered, delayed, headerOnly, inspecting, errorPage, held) := s;
    var lawful :=
      && (!triggered ==> t.delivered == t.lost + t.forwarded + held)
      && (!delayed ==> held == [])
      && (delayed ==> !triggered && !errorPage && t.forwarded == [] && t.lost == [] && t.heads == 0)
      && (!delayed && !triggered ==> t.heads == 1)
      && t.lost + t.forwarded <= t.delivered
      && (inspecting && !errorPage ==> t.lost + t.forwarded <= t.appended <= t.delivered)
      && (inspecting && !errorPage && !triggered ==> t.appended == t.delivered)
      && (!inspecting ==> t.appended == []) && (!t.failed ==> t.lost == [])
      && (triggered ==> t.upset && (t.ended || headerOnly)) && (t.ended ==> triggered)
      && t.heads <= 1 && (t.forwarded != [] ==> t.heads == 1)
      && (t.replaced ==> triggered && t.forwarded == [] && t.lost == []);
    lawful
  }

  lemma LawUpset(s: Snap, adverse: bool)
    requires Law(s)
    ensures Law(s.(t := s.t.(upset := s.t.upset || adverse)))
  {
  }

  /** What the engine has been given once the buffers `ps` have been walked. */
  ghost function Shown(prefix: seq<byte>, ps: seq<seq<byte>>, inspecting: bool): seq<byte> {
    if inspecting then prefix + Cat(ps) else prefix
  }

  /** What it has been given at each buffer marked last. */
  ghost function Finals(prefix: seq<byte>, ps: seq<seq<byte>>, lasts: seq<bool>, inspecting: bool): seq<seq<byte>>
    requires |ps| == |lasts|
  {
    if ps == [] then []
    else
      var n := |ps| - 1;
      Finals(prefix, ps[..n], lasts[..n], inspecting)
      + if lasts[n] then [Shown(prefix, ps, inspecting)] else []
  }

  ghost function Walked(t: Traces, ps: seq<seq<byte>>, lasts: seq<bool>, inspecting: bool): Traces
    requires |ps| == |lasts|
  {
    t.(appended := Shown(t.appended, ps, inspecting),
       evaluated := t.evaluated + Finals(t.appended, ps, lasts, inspecting))
  }

  lemma WalkedNone(t: Traces, inspecting: bool)
    ensures Walked(t, [], [], inspecting) == t
  {
  }

  /** One buffer more. */
  ghost function Seen(t: Traces, p: seq<byte>, last: bool, inspecting: bool): Traces {
    var a := if inspecting then t.appended + p else t.appended;
    t.(appended := a, evaluated := if last then t.evaluated + [a] else t.evaluated)
  }

  /** The walk was cut inside a buffer: part of it shown, its phase 4 perhaps run. */
  ghost predicate SeenPartly(t: Traces, t': Traces, p: seq<byte>, last: bool, inspecting: bool) {
    var whole := Seen(t, p, last, inspecting);
    var partly :=
      && t' == t.(appended := t'.appended, evaluated := t'.evaluated, upset := t'.upset) && (t.upset ==> t'.upset)
      && t.appended <= t'.appended <= whole.appended
      && t.evaluated <= t'.evaluated <= whole.evaluated;
    partly
  }

  lemma SeenThenUpset(t: Traces, t1: Traces, p: seq<byte>, last: bool, inspecting: bool, adverse: bool)
    requires SeenPartly(t, t1, p, last, inspecting)
    ensures SeenPartly(t, t1.(upset := t1.upset || adverse), p, last, inspecting)
  {
  }

  lemma {:induction false} WalkedOne(t: Traces, ps: seq<seq<byte>>, lasts: seq<bool>, p: seq<byte>, last: bool, inspecting: bool)
    requires |ps| == |lasts|
    ensures Walked(t, ps + [p], lasts + [last], inspecting)
         == Seen(Walked(t, ps, lasts, inspecting), p, last, inspecting)
  {
    CatSnoc(ps, p);
    assert (ps + [p])[..|ps|] == ps && (lasts + [last])[..|ps|] == lasts;
    assert t.appended + (Cat(ps) + p) == t.appended + Cat(ps) + p;
    assert Shown(t.appended, ps + [p], inspecting)
        == if inspecting then Walked(t, ps, lasts, inspecting).appended + p else Walked(t, ps, lasts, inspecting).appended;
    assert Finals(t.appended, ps + [p], lasts + [last], inspecting)
        == Finals(t.appended, ps, lasts, inspecting) + if last then [Shown(t.appended, ps + [p], inspecting)] else [];
    assert t.evaluated + (Finals(t.appended, ps, lasts, inspecting) + [Shown(t.appended, ps + [p], inspecting)])
        == (t.evaluated + Finals(t.appended, ps, lasts, inspecting)) + [Shown(t.appended, ps + [p], inspecting)];
  }

  /** Phase 4 runs once per last buffer. */
  ghost function Count(lasts: seq<bool>): nat {
    if lasts == [] then 0 else Count(lasts[..|lasts| - 1]) + if lasts[|lasts| - 1] then 1 else 0
  }

  lemma {:induction false} FinalsCount(prefix: seq<byte>, ps: seq<seq<byte>>, lasts: seq<bool>, inspecting: bool)
    requires |ps| == |lasts|
    ensures |Finals(prefix, ps, lasts, inspecting)| == Count(lasts)
  {
    if ps != [] {
      var n := |ps| - 1;
      FinalsCount(prefix, ps[..n], lasts[..n], inspecting);
    }
  }

  // ---------- the loop over one chain ----------

  /** The loop part way: traces, what is held, what has been charged to the delay, and
      whether a last buffer has been met. */
  datatype Mid = Mid(t: Traces, held: seq<seq<byte>>, charged: nat, seen: bool)

  ghost function Step(m: Mid, p: seq<byte>, last: bool, inspecting: bool): Mid {
    Mid(Seen(m.t, p, last, inspecting), m.held + [p], m.charged + (if last then 0 else |p|), m.seen || last)
  }

  ghost function After(m: Mid, ps: seq<seq<byte>>, lasts: seq<bool>, inspecting: bool): Mid
    requires |ps| == |lasts|
  {
    if ps == [] then m
    else
      var n := |ps| - 1;
      Step(After(m, ps[..n], lasts[..n], inspecting), ps[n], lasts[n], inspecting)
  }

  lemma AfterNext(m: Mid, ps: seq<seq<byte>>, lasts: seq<bool>, inspecting: bool, i: nat)
    requires i < |ps| == |lasts|
    ensures After(m, ps[..i + 1], lasts[..i + 1], inspecting)
         == Step(After(m, ps[..i], lasts[..i], inspecting), ps[i], lasts[i], inspecting)
  {
    assert ps[..i + 1][..i] == ps[..i] && lasts[..i + 1][..i] == lasts[..i];
  }

  /** The loop over a whole chain in closed form. */
  lemma {:induction false} AfterAll(m: Mid, ps: seq<seq<byte>>, lasts: seq<bool>, inspecting: bool)
    requires |ps| == |lasts|
    ensures var a := After(m, ps, lasts, inspecting);
            && a.t == Walked(m.t, ps, lasts, inspecting) && a.held == m.held + ps
            && a.charged <= m.charged + |Cat(ps)| && (!a.seen ==> a.charged == m.charged + |Cat(ps)|)
            && (a.seen <==> m.seen || Count(lasts) > 0)
    decreases |ps|
  {
    if ps == [] {
      assert m.held + [] == m.held;
      WalkedNone(m.t, inspecting);
    } else {
      var n := |ps| - 1;
      AfterAll(m, ps[..n], lasts[..n], inspecting);
      WalkedOne(m.t, ps[..n], lasts[..n], ps[n], lasts[n], inspecting);
      assert ps == ps[..n] + [ps[n]] && lasts == lasts[..n] + [lasts[n]];
      assert m.held + ps == m.held + ps[..n] + [ps[n]];
    }
  }

  /** At no point of the loop does the delay hold more than before the call plus the chain. */
  lemma {:induction false} BoundedDelay(m: Mid, ps: seq<seq<byte>>, lasts: seq<bool>, inspecting: bool, i: nat)
    requires i <= |ps| == |lasts|
    ensures After(m, ps[..i], lasts[..i], inspecting).charged <= m.charged + |Cat(ps)|
  {
    AfterAll(m, ps[..i], lasts[..i], inspecting);
    CatPrefix(ps, i);
  }

  lemma {:induction false} FinalsPrefix(prefix: seq<byte>, ps: seq<seq<byte>>, lasts: seq<bool>, inspecting: bool, i: nat)
    requires i <= |ps| == |lasts|
    ensures Finals(prefix, ps[..i], lasts[..i], inspecting) <= Finals(prefix, ps, lasts, inspecting)
    decreases |ps|
  {
    var n := |ps| - 1;
    if i == |ps| {
      assert ps[..i] == ps && lasts[..i] == lasts;
    } else {
      FinalsPrefix(prefix, ps[..n], lasts[..n], inspecting, i);
      assert ps[..n][..i] == ps[..i] && lasts[..n][..i] == lasts[..i];
    }
  }

  lemma {:induction false} WalkedPrefix(t: Traces, ps: seq<seq<byte>>, lasts: seq<bool>, inspecting: bool, i: nat)
    requires i <= |ps| == |lasts|
    ensures var w := Walked(t, ps[..i], lasts[..i], inspecting);
            && t.appended <= w.appended <= Shown(t.appended, ps, inspecting)
            && t.evaluated <= w.evaluated <= t.evaluated + Finals(t.appended, ps, lasts, inspecting)
  {
    CatPrefix(ps, i);
    FinalsPrefix(t.appended, ps, lasts, inspecting, i);
  }

  /** A walk cut anywhere has shown a part of the chain and run a part of its phase 4s. */
  lemma {:induction false} CutWalk(t: Traces, t': Traces, ps: seq<seq<byte>>, lasts: seq<bool>, inspecting: bool, i: nat)
    requires i < |ps| == |lasts|
    requires SeenPartly(Walked(t, ps[..i], lasts[..i], inspecting), t', ps[i], lasts[i], inspecting)
    ensures t' == t.(appended := t'.appended, evaluated := t'.evaluated, upset := t'.upset)
    ensures t.appended <= t'.appended <= Shown(t.appended, ps, inspecting)
    ensures t.evaluated <= t'.evaluated <= t.evaluated + Finals(t.appended, ps, lasts, inspecting)
  {
    var w := Walked(t, ps[..i], lasts[..i], inspecting);
    var w' := Seen(w, ps[i], lasts[i], inspecting);
    assert ps[..i + 1] == ps[..i] + [ps[i]] && lasts[..i + 1] == lasts[..i] + [lasts[i]];
    WalkedOne(t, ps[..i], lasts[..i], ps[i], lasts[i], inspecting);
    WalkedPrefix(t, ps, lasts, inspecting, i);
    WalkedPrefix(t, ps, lasts, inspecting, i + 1);
    Between(t.appended, w.appended, t'.appended, w'.appended, Shown(t.appended, ps, inspecting));
    CutEvaluated(t, w, t', w', t.evaluated + Finals(t.appended, ps, lasts, inspecting));
  }

  lemma Between<T>(a: seq<T>, b: seq<T>, c: seq<T>, d: seq<T>, e: seq<T>)
    requires a <= b <= c <= d <= e
    ensures a <= c <= e
  {
  }

  lemma CutEvaluated(t: Traces, w: Traces, t': Traces, w': Traces, all: seq<seq<byte>>)
    requires t.evaluated <= w.evaluated <= t'.evaluated <= w'.evaluated <= all
    ensures t.evaluated <= t'.evaluated <= all
  {
  }

  // ---------- the exits of one call ----------

  /** A chain of origin buffers arrives, unless the response has been replaced. */
  ghost function Deliver(s: Snap, bytes: seq<byte>): Snap {
    if s.t.ended then s else s.(t := s.t.(delivered := s.t.delivered + bytes))
  }

  lemma LawSwallow(s: Snap, bytes: seq<byte>)
    requires Law(s) && s.triggered
    ensures Law(Deliver(s, bytes))
  {
  }

  /** The chain is forwarded as it came: nothing held, no intervention. */
  ghost function Streamed(s: Snap, ps: seq<seq<byte>>, lasts: seq<bool>): Snap
    requires |ps| == |lasts|
  {
    var w := Walked(s.t, ps, lasts, s.inspecting);
    s.(t := w.(delivered := w.delivered + Cat(ps), forwarded := w.forwarded + Cat(ps)))
  }

  lemma LawStreamed(s: Snap, ps: seq<seq<byte>>, lasts: seq<bool>)
    requires |ps| == |lasts| && Law(s) && !s.triggered && !s.delayed
    ensures Law(Streamed(s, ps, lasts))
  {
    var t := s.t;
    assert t.lost + (t.forwarded + Cat(ps)) == t.lost + t.forwarded + [] + Cat(ps);
  }

  /** Under an error page the walk may stop anywhere; the chain is forwarded whole. */
  lemma LawYielded(s: Snap, t: Traces, bytes: seq<byte>)
    requires Law(s) && s.errorPage && !s.triggered
    requires t == s.t.(appended := t.appended, evaluated := t.evaluated, upset := t.upset)
    requires !s.inspecting ==> t.appended == s.t.appended
    ensures Law(s.(t := t.(delivered := t.delivered + bytes, forwarded := t.forwarded + bytes)))
  {
    assert s.t.lost + (s.t.forwarded + bytes) == s.t.lost + s.t.forwarded + [] + bytes;
  }

  /** The chain is added to what is held. */
  ghost function Kept(s: Snap, ps: seq<seq<byte>>, lasts: seq<bool>): Snap
    requires |ps| == |lasts|
  {
    var w := Walked(s.t, ps, lasts, s.inspecting);
    s.(t := w.(delivered := w.delivered + Cat(ps)), held := s.held + Cat(ps))
  }

  lemma LawKept(s: Snap, ps: seq<seq<byte>>, lasts: seq<bool>)
    requires |ps| == |lasts| && Law(s) && s.delayed
    ensures Law(Kept(s, ps, lasts))
  {
    assert [] + [] + (s.held + Cat(ps)) == [] + [] + s.held + Cat(ps);
  }

  /** Headers, then everything held, go downstream; or the headers fail and it is lost. */
  ghost function Flushed(s: Snap, headersOk: bool, headerOnly: bool): Snap {
    s.(delayed := false, held := [], headerOnly := headerOnly,
       t := if headersOk then s.t.(heads := s.t.heads + 1, forwarded := s.t.forwarded + s.held)
            else s.t.(heads := s.t.heads + 1, failed := true, lost := s.held))
  }

  lemma LawFlushed(s: Snap, headersOk: bool, headerOnly: bool)
    requires Law(s) && s.delayed
    ensures Law(Flushed(s, headersOk, headerOnly))
  {
    assert [] + s.held == s.held && [] + [] + s.held == s.held && s.held + [] + [] == s.held;
    assert [] + s.held + [] == s.held && s.held + [] == s.held;
  }

  /** An intervention or failure: the held body is dropped, and either a redirect goes
      downstream (only headers still held can be replaced by it) or nginx takes over. */
  ghost function Replaced(s: Snap, t: Traces, bytes: seq<byte>, status: int, redirect: bool, sent: bool): Snap {
    s.(triggered := true, delayed := false, held := [],
       headerOnly := s.headerOnly || redirect,
       t := t.(delivered := t.delivered + bytes, answer := status, replaced := t.replaced || s.delayed,
               ended := t.ended || !redirect, failed := t.failed || (redirect && !sent),
               heads := if redirect then t.heads + 1 else t.heads))
  }

  lemma LawReplaced(s: Snap, t: Traces, bytes: seq<byte>, status: int, redirect: bool, sent: bool)
    requires Law(s) && !s.triggered && (redirect ==> s.delayed)
    requires t == s.t.(appended := t.appended, evaluated := t.evaluated, upset := t.upset) && t.upset
    requires s.t.appended <= t.appended
    requires if s.inspecting then s.errorPage || t.appended <= s.t.delivered + bytes else t.appended == s.t.appended
    ensures Law(Replaced(s, t, bytes, status, redirect, sent))
  {
  }

  // ---------- what one call does, in sum ----------

  /** A call on a chain carrying `ps` takes the filter from s to s'. */
  ghost predicate Call(s: Snap, s': Snap, ps: seq<seq<byte>>, lasts: seq<bool>)
    requires |ps| == |lasts|
  {
    var call :=
      && s'.inspecting == s.inspecting && s'.errorPage == s.errorPage
      // the chain is the origin's unless the response has been replaced
      && s'.t.delivered == (if s.t.ended then s.t.delivered else s.t.delivered + Cat(ps))
      // once there has been an intervention nothing of the origin moves any more
      && (s.triggered ==> s'.triggered && s'.t == s.t.(delivered := s'.t.delivered))
      // outside an error page a verdict or failure is acted on, and its chain is withheld
      && (!s'.triggered && !s.errorPage ==> s'.t.upset == s.t.upset)
      && (!s.triggered && s'.triggered ==> s'.t.forwarded == s.t.forwarded)
      && s'.t.overlooked == s.t.overlooked && (s.t.failed ==> s'.t.failed)
      // only headers still held are replaced by a redirect
      && (!s.triggered && s'.triggered && !s'.t.ended ==> s.delayed)
      // phase 4 runs at each last buffer, on all that has been shown up to and including it
      && s.t.evaluated <= s'.t.evaluated <= s.t.evaluated + Finals(s.t.appended, ps, lasts, s.inspecting)
      && (!s'.triggered && !s.errorPage ==>
            s'.t.evaluated == s.t.evaluated + Finals(s.t.appended, ps, lasts, s.inspecting))
      // headers held stay held, or are flushed with all that is held, or are replaced
      && (s'.delayed ==> s.delayed && Count(lasts) == 0 && s'.held == s.held + Cat(ps))
      // and they stay held until the end of the body or the cap
      && (s.delayed && !s'.triggered ==> (s'.delayed <==> Count(lasts) == 0 && |s.held + Cat(ps)| <= MAX_DELAYED_BODY));
    call
  }

  /** How a call from s to s' refuses, if it does: with `status`, and as a redirect exactly if
      the headers are still held, the status is one and there is a Location; otherwise nginx
      answers in its own words. */
  ghost predicate Refusal(s: Snap, s': Snap, status: int, location: bool) {
    var refusal :=
      && (!s.triggered && s'.triggered ==>
            && s'.t.answer == status && s'.t.replaced == (s.t.replaced || s.delayed)
            && (!s'.t.ended <==> s.delayed && IsRedirect(status) && location))
      && (s.triggered == s'.triggered ==>
            s'.t.answer == s.t.answer && s'.t.replaced == s.t.replaced && s'.t.ended == s.t.ended);
    refusal
  }

  lemma NoRefusal(s: Snap, s': Snap, status: int, location: bool)
    requires s.triggered == s'.triggered
    requires s'.t.answer == s.t.answer && s'.t.replaced == s.t.replaced && s'.t.ended == s.t.ended
    ensures Refusal(s, s', status, location)
  {
  }

  /** What a call does and, if it refuses, how. */
  ghost predicate Turned(s: Snap, s': Snap, ps: seq<seq<byte>>, lasts: seq<bool>, status: int, location: bool) {
    var turned := |ps| == |lasts| && Call(s, s', ps, lasts) && Refusal(s, s', status, location);
    turned
  }

  lemma RefusalOf(s: Snap, t: Traces, bytes: seq<byte>, status: int, redirect: bool, sent: bool, location: bool)
    requires Law(s) && !s.triggered && (redirect <==> s.delayed && IsRedirect(status) && location)
    requires t.ended == s.t.ended && t.replaced == s.t.replaced
    ensures Refusal(s, Replaced(s, t, bytes, status, redirect, sent), status, location)
  {
  }

  lemma CallSwallow(s: Snap, ps: seq<seq<byte>>, lasts: seq<bool>)
    requires |ps| == |lasts| && s.triggered && Law(s)
    ensures Call(s, Deliver(s, Cat(ps)), ps, lasts)
  {
  }

  lemma CallStreamed(s: Snap, ps: seq<seq<byte>>, lasts: seq<bool>)
    requires |ps| == |lasts| && Law(s) && !s.triggered && !s.delayed
    ensures Call(s, Streamed(s, ps, lasts), ps, lasts)
  {
  }

  lemma CallKept(s: Snap, ps: seq<seq<byte>>, lasts: seq<bool>)
    requires |ps| == |lasts| && Law(s) && s.delayed && Count(lasts) == 0 && |s.held + Cat(ps)| <= MAX_DELAYED_BODY
    ensures Call(s, Kept(s, ps, lasts), ps, lasts)
  {
  }

  lemma CallFlushed(s: Snap, ps: seq<seq<byte>>, lasts: seq<bool>, headersOk: bool, headerOnly: bool)
    requires |ps| == |lasts| && Law(s) && s.delayed && (Count(lasts) > 0 || |s.held + Cat(ps)| > MAX_DELAYED_BODY)
    ensures Call(s, Flushed(Kept(s, ps, lasts), headersOk, headerOnly), ps, lasts)
  {
  }

  /** Noting beforehand that a chain cannot be inspected changes nothing, if it is acted on. */
  lemma CallNoted(s: Snap, s0: Snap, s': Snap, ps: seq<seq<byte>>, lasts: seq<bool>)
    requires |ps| == |lasts| && !s.triggered && s0 == s.(t := s.t.(upset := s0.t.upset)) && Call(s0, s', ps, lasts)
    requires !s'.triggered && !s.errorPage ==> s0.t.upset == s.t.upset
    ensures Call(s, s', ps, lasts)
  {
  }

  lemma CallNothing(s: Snap)
    requires s.delayed ==> |s.held| <= MAX_DELAYED_BODY
    ensures Call(s, s, [], [])
  {
    assert s.t.delivered + [] == s.t.delivered && s.t.evaluated + [] == s.t.evaluated && s.held + [] == s.held;
  }

  // ---------- a run of calls ----------

  lemma {:induction false} FinalsConcat(prefix: seq<byte>, ps: seq<seq<byte>>, lasts: seq<bool>,
                                        qs: seq<seq<byte>>, marks: seq<bool>, inspecting: bool)
    requires |ps| == |lasts| && |qs| == |marks|
    ensures Finals(prefix, ps + qs, lasts + marks, inspecting)
         == Finals(prefix, ps, lasts, inspecting) + Finals(Shown(prefix, ps, inspecting), qs, marks, inspecting)
    decreases |qs|
  {
    if qs == [] {
      assert ps + qs == ps && lasts + marks == lasts;
    } else {
      var n := |qs| - 1;
      FinalsConcat(prefix, ps, lasts, qs[..n], marks[..n], inspecting);
      assert (ps + qs)[..|ps + qs| - 1] == ps + qs[..n] && (lasts + marks)[..|ps + qs| - 1] == lasts + marks[..n];
      ShownConcat(prefix, ps, qs, inspecting);
    }
  }

  lemma ShownConcat(prefix: seq<byte>, ps: seq<seq<byte>>, qs: seq<seq<byte>>, inspecting: bool)
    ensures Shown(prefix, ps + qs, inspecting) == Shown(Shown(prefix, ps, inspecting), qs, inspecting)
  {
    CatConcat(ps, qs);
    assert prefix + (Cat(ps) + Cat(qs)) == prefix + Cat(ps) + Cat(qs);
  }

  lemma {:induction false} CountConcat(a: seq<bool>, b: seq<bool>)
    ensures Count(a + b) == Count(a) + Count(b)
    decreases |b|
  {
    if b == [] {
      assert a + b == a;
    } else {
      CountConcat(a, b[..|b| - 1]);
      assert (a + b)[..|a + b| - 1] == a + b[..|b| - 1];
    }
  }

  /** The bytes are those of the first buffers, all of each. */
  ghost predicate Begins(bytes: seq<byte>, sent: seq<seq<byte>>) {
    exists k :: 0 <= k <= |sent| && bytes == Cat(sent[..k])
  }

  lemma BeginsWithNothing()
    ensures Begins([], [])
  {
    var none: seq<seq<byte>> := [];
    assert none[..0] == [];
  }

  lemma BeginsLonger(bytes: seq<byte>, sent: seq<seq<byte>>, ps: seq<seq<byte>>)
    requires Begins(bytes, sent)
    ensures Begins(bytes, sent + ps)
  {
    var k :| 0 <= k <= |sent| && bytes == Cat(sent[..k]);
    assert (sent + ps)[..k] == sent[..k];
  }

  /** At a refusal all or nothing of what came before has gone downstream. */
  lemma BeginsAtRefusal(s: Snap, sent: seq<seq<byte>>)
    requires Law(s) && !s.triggered && !s.t.failed && s.t.delivered == Cat(sent)
    ensures Begins(s.t.forwarded, sent)
  {
    assert sent[..0] == [] && sent[..|sent|] == sent;
    if s.delayed {
      assert s.t.forwarded == Cat(sent[..0]);
    } else {
      assert [] + s.t.forwarded + [] == s.t.forwarded;
      assert s.t.forwarded == Cat(sent[..|sent|]);
    }
  }

  /** The state s agrees with the record of all buffers handed to the filter so far: `sent`
      is what each carried when it was handed over, `marks` which were marked last. */
  ghost predicate Ledger(s: Snap, sent: seq<seq<byte>>, marks: seq<bool>)
    requires |sent| == |marks|
  {
    var ledger :=
      && (!s.t.ended ==> s.t.delivered == Cat(sent)) && s.t.delivered <= Cat(sent)
      && (!s.errorPage ==> s.t.evaluated <= Finals([], sent, marks, s.inspecting))
      && (!s.triggered && !s.errorPage ==> s.t.evaluated == Finals([], sent, marks, s.inspecting))
      && (s.t.upset && !s.errorPage ==> s.triggered)
      && (s.triggered && !s.t.failed ==> Begins(s.t.forwarded, sent))
      && (s.delayed ==> Count(marks) == 0);
    ledger
  }

  lemma {:induction false} LedgerNext(s: Snap, s': Snap, sent: seq<seq<byte>>, marks: seq<bool>, ps: seq<seq<byte>>, lasts: seq<bool>)
    requires |sent| == |marks| && |ps| == |lasts| && Ledger(s, sent, marks)
    requires Law(s) && Law(s') && Call(s, s', ps, lasts)
    ensures Ledger(s', sent + ps, marks + lasts)
  {
    CatConcat(sent, ps);
    CountConcat(marks, lasts);
    FinalsConcat([], sent, marks, ps, lasts, s.inspecting);
    if !s.triggered && !s.errorPage {
      assert s.t.appended == Shown([], sent, s.inspecting);
    }
    LedgerRefused(s, s', sent, marks, ps, lasts);
  }

  lemma LedgerRefused(s: Snap, s': Snap, sent: seq<seq<byte>>, marks: seq<bool>, ps: seq<seq<byte>>, lasts: seq<bool>)
    requires |sent| == |marks| && |ps| == |lasts| && Ledger(s, sent, marks)
    requires Law(s) && Call(s, s', ps, lasts)
    ensures s'.triggered && !s'.t.failed ==> Begins(s'.t.forwarded, sent + ps)
  {
    if s'.triggered && !s'.t.failed {
      if !s.triggered { BeginsAtRefusal(s, sent); }
      BeginsLonger(s.t.forwarded, sent, ps);
    }
  }

  /** What the record of a whole run says about its outcome. */
  ghost predicate Outcome(s: Snap, sent: seq<seq<byte>>, marks: seq<bool>)
    requires |sent| == |marks|
  {
    var outcome :=
      // the response is refused exactly on a verdict or a failure, an error page excepted
      && (s.triggered ==> s.t.upset) && (s.t.upset && !s.errorPage ==> s.triggered)
      // and what had gone by then ends before the chain that was refused
      && (s.triggered && !s.t.failed ==> Begins(s.t.forwarded, sent))
      // conservation: everything has gone downstream, or is still held behind the headers
      && (!s.triggered && !s.t.failed ==> s.t.forwarded + s.held == Cat(sent))
      // whatever happened, what went downstream is an initial part of the body
      && (!s.t.failed ==> s.t.forwarded <= Cat(sent))
      // the headers went before any byte, once; while they are held nothing has gone
      && s.t.heads <= 1 && (s.t.forwarded != [] ==> s.t.heads == 1)
      && (s.delayed ==> s.t.heads == 0 && s.t.forwarded == [] && Count(marks) == 0)
      // nothing goes downstream uninspected
      && (s.inspecting && !s.errorPage && !s.t.failed ==> s.t.forwarded <= s.t.appended <= Cat(sent))
      // phase 4 ran at each last buffer, on all the body up to and including it
      && (!s.triggered && !s.errorPage ==> s.t.evaluated == Finals([], sent, marks, s.inspecting))
      && (!s.errorPage ==> |s.t.evaluated| <= Count(marks))
      // a response replaced before its headers went out never sent a byte of its body
      && (s.t.replaced ==> s.t.forwarded == []);
    outcome
  }

  lemma OutcomeOf(s: Snap, sent: seq<seq<byte>>, marks: seq<bool>)
    requires |sent| == |marks| && Law(s) && Ledger(s, sent, marks)
    ensures Outcome(s, sent, marks)
  {
    FinalsCount([], sent, marks, s.inspecting);
    assert [] + s.t.forwarded + s.held == s.t.forwarded + s.held && [] + s.t.forwarded == s.t.forwarded;
  }

  /** The headers are still held exactly if they were to wait, nothing was refused, no last
      buffer has come and the body is within the cap. */
  ghost predicate HeldExactly(s: Snap, waits: bool, sent: seq<seq<byte>>, marks: seq<bool>) {
    var held := s.delayed <==> waits && !s.triggered && Count(marks) == 0 && |Cat(sent)| <= MAX_DELAYED_BODY;
    held
  }

  lemma HeldNext(s: Snap, s': Snap, waits: bool, sent: seq<seq<byte>>, marks: seq<bool>, ps: seq<seq<byte>>, lasts: seq<bool>)
    requires |sent| == |marks| && |ps| == |lasts| && Ledger(s, sent, marks) && HeldExactly(s, waits, sent, marks)
    requires Law(s) && Law(s') && Call(s, s', ps, lasts)
    ensures HeldExactly(s', waits, sent + ps, marks + lasts)
  {
    CatConcat(sent, ps);
    CountConcat(marks, lasts);
    if s.delayed {
      assert [] + [] + s.held == s.held;
    }
  }

  /** A refusal was answered with `status`, as a redirect exactly if it came before the headers
      went out, the status is one and there is a Location. `early` tells of an intervention
      before the response. */
  ghost predicate Answered(s: Snap, early: bool, status: int, location: bool) {
    var answered := s.triggered && !early ==>
      s.t.answer == status && (!s.t.ended <==> s.t.replaced && IsRedirect(status) && location);
    answered
  }

  lemma AnsweredNext(s: Snap, s': Snap, early: bool, before: int, status: int, location: bool)
    requires Law(s) && Answered(s, early, before, location) && Refusal(s, s', status, location)
    requires s.triggered ==> s'.triggered && status == before
    ensures Answered(s', early, status, location)
  {
  }

  /** All that is known of a run so far. */
  ghost predicate Tale(s: Snap, waits: bool, early: bool, status: int, location: bool, sent: seq<seq<byte>>, marks: seq<bool>) {
    var tale :=
      && |sent| == |marks| && Law(s) && Ledger(s, sent, marks) && HeldExactly(s, waits, sent, marks)
      && Answered(s, early, status, location);
    tale
  }

  lemma TaleNext(s: Snap, s': Snap, waits: bool, early: bool, before: int, status: int, location: bool,
                 sent: seq<seq<byte>>, marks: seq<bool>, ps: seq<seq<byte>>, lasts: seq<bool>)
    requires Tale(s, waits, early, before, location, sent, marks) && Law(s') && Turned(s, s', ps, lasts, status, location)
    requires s.triggered ==> status == before
    ensures Tale(s', waits, early, status, location, sent + ps, marks + lasts)
  {
    LedgerNext(s, s', sent, marks, ps, lasts);
    HeldNext(s, s', waits, sent, marks, ps, lasts);
    AnsweredNext(s, s', early, before, status, location);
  }
}
