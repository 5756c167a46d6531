/**
The life of the engine's transactions: created with a request's context, logged once, freed
once, whatever fails and wherever the request is redirected.
 */
module TxLifecycle {

  /** What happens to a transaction: the engine creates, logs and frees it, and nginx registers
      its cleanup or fails to. */
  datatype Event = Created(tx: nat) | Registered(tx: nat) | Unregistered(tx: nat) | Logged(tx: nat) | Freed(tx: nat)

  /** How far one transaction has come; anything out of order breaks it for good. A registered
      one is logged before it is freed, one that could not be registered is freed at once. */
  datatype Stage = Unborn | Made | Live | LiveLogged | Gone | Stranded | Dropped | Broken

  function Advance(s: Stage, e: Event): Stage {
    match (s, e)
    case (Unborn, Created(_)) => Made
    case (Made, Registered(_)) => Live
    case (Live, Logged(_)) => LiveLogged
    case (LiveLogged, Freed(_)) => Gone
    case (Made, Unregistered(_)) => Stranded
    case (Stranded, Freed(_)) => Dropped
    case _ => Broken
  }

  function StageOf(trace: seq<Event>, tx: nat): Stage {
    if trace == [] then Unborn
    else
      var n := |trace| - 1;
      var s := StageOf(trace[..n], tx);
      if trace[n].tx == tx then Advance(s, trace[n]) else s
  }

  lemma StageNext(trace: seq<Event>, e: Event)
    ensures forall tx :: StageOf(trace + [e], tx)
              == if e.tx == tx then Advance(StageOf(trace, tx), e) else StageOf(trace, tx)
  {
    assert (trace + [e])[..|trace|] == trace;
  }

  function Occurs(trace: seq<Event>, e: Event): nat {
    if trace == [] then 0
    else Occurs(trace[..|trace| - 1], e) + if trace[|trace| - 1] == e then 1 else 0
  }

  /** What a stage says about the events: how often each has happened. */
  lemma {:induction false} StageCounts(trace: seq<Event>, tx: nat)
    requires StageOf(trace, tx) != Broken
    ensures var s := StageOf(trace, tx);
            && Occurs(trace, Created(tx)) == (if s == Unborn then 0 else 1)
            && Occurs(trace, Registered(tx)) == (if s == Live || s == LiveLogged || s == Gone then 1 else 0)
            && Occurs(trace, Logged(tx)) == (if s == LiveLogged || s == Gone then 1 else 0)
            && Occurs(trace, Freed(tx)) == (if s == Gone || s == Dropped then 1 else 0)
  {
    if trace != [] { StageCounts(trace[..|trace| - 1], tx); }
  }

  /** The transactions of a request: those awaiting their cleanup, and whether they have been
      logged; those whose cleanup could not be registered; those their cleanup has freed. */
  datatype Book = Book(held: map<nat, bool>, orphans: set<nat>, done: set<nat>)

  ghost function Expected(b: Book, tx: nat): Stage {
    if tx in b.held then (if b.held[tx] then LiveLogged else Live)
    else if tx in b.orphans then Dropped
    else if tx in b.done then Gone
    else Unborn
  }

  ghost predicate Sound(trace: seq<Event>, b: Book) {
    forall tx :: tx != 0 ==> StageOf(trace, tx) == Expected(b, tx)
  }

  lemma SoundRegistered(trace: seq<Event>, b: Book, tx: nat)
    requires Sound(trace, b) && tx != 0 && Expected(b, tx) == Unborn
    ensures Sound(trace + [Created(tx)] + [Registered(tx)], b.(held := b.held[tx := false]))
  {
    StageNext(trace, Created(tx));
    StageNext(trace + [Created(tx)], Registered(tx));
  }

  lemma SoundDropped(trace: seq<Event>, b: Book, tx: nat)
    requires Sound(trace, b) && tx != 0 && Expected(b, tx) == Unborn
    ensures Sound(trace + [Created(tx)] + [Unregistered(tx)] + [Freed(tx)], b.(orphans := b.orphans + {tx}))
  {
    StageNext(trace, Created(tx));
    StageNext(trace + [Created(tx)], Unregistered(tx));
    StageNext(trace + [Created(tx)] + [Unregistered(tx)], Freed(tx));
  }

  lemma SoundLogged(trace: seq<Event>, b: Book, tx: nat)
    requires Sound(trace, b) && (tx == 0 || (tx in b.held && !b.held[tx]))
    ensures Sound(trace + [Logged(tx)], if tx == 0 then b else b.(held := b.held[tx := true]))
  {
    StageNext(trace, Logged(tx));
  }

  lemma SoundFreed(trace: seq<Event>, b: Book, tx: nat)
    requires Sound(trace, b) && tx in b.held && b.held[tx] && tx !in b.orphans
    ensures Sound(trace + [Freed(tx)], b.(held := b.held - {tx}, done := b.done + {tx}))
  {
    StageNext(trace, Freed(tx));
  }

  /** A registered context: its transaction and whether that has been logged. */
  datatype Slot = Slot(tx: nat, logged: bool)

  /** The registered contexts are exactly the transactions held. */
  ghost predicate Agrees(slots: seq<Slot>, b: Book) {
    var agrees :=
      && (forall i :: 0 <= i < |slots| ==> slots[i].tx in b.held && b.held[slots[i].tx] == slots[i].logged)
      && (forall i, j :: 0 <= i < j < |slots| ==> slots[i].tx != slots[j].tx)
      && b.held.Keys == Txs(slots) && 0 !in b.held && b.held.Keys !! b.orphans && b.orphans !! b.done;
    agrees
  }

  ghost function Txs(slots: seq<Slot>): set<nat> {
    set s | s in slots :: s.tx
  }

  lemma AgreesRegistered(slots: seq<Slot>, b: Book, tx: nat)
    requires Agrees(slots, b) && tx != 0 && tx !in b.held && tx !in b.orphans
    ensures Agrees(slots + [Slot(tx, false)], b.(held := b.held[tx := false]))
  {
    assert Txs(slots + [Slot(tx, false)]) == Txs(slots) + {tx};
  }

  lemma AgreesLogged(slots: seq<Slot>, b: Book, k: nat)
    requires Agrees(slots, b) && k < |slots|
    ensures var tx := slots[k].tx; Agrees(slots[k := Slot(tx, true)], b.(held := b.held[tx := true]))
  {
    var tx := slots[k].tx;
    var slots' := slots[k := Slot(tx, true)];
    forall t | t in Txs(slots) ensures t in Txs(slots') {
      var i :| 0 <= i < |slots| && slots[i].tx == t;
      assert slots'[i].tx == t;
    }
    assert Txs(slots') == Txs(slots);
  }

  lemma AgreesFreed(slots: seq<Slot>, b: Book)
    requires Agrees(slots, b) && slots != []
    ensures var tx := slots[|slots| - 1].tx; Agrees(slots[..|slots| - 1], b.(held := b.held - {tx}, done := b.done + {tx}))
  {
    var n := |slots| - 1;
    assert slots == slots[..n] + [slots[n]];
    assert Txs(slots) == Txs(slots[..n]) + {slots[n].tx};
  }

  ghost predicate Consistent(trace: seq<Event>, slots: seq<Slot>, b: Book, used: set<nat>) {
    var consistent := Sound(trace, b) && Agrees(slots, b) && used == b.held.Keys + b.orphans + b.done;
    consistent
  }

  lemma Registers(trace: seq<Event>, slots: seq<Slot>, b: Book, used: set<nat>, tx: nat)
    requires Consistent(trace, slots, b, used) && tx != 0 && tx !in used
    ensures Consistent(trace + [Created(tx)] + [Registered(tx)], slots + [Slot(tx, false)],
                       b.(held := b.held[tx := false]), used + {tx})
  {
    SoundRegistered(trace, b, tx);
    AgreesRegistered(slots, b, tx);
  }

  lemma Abandons(trace: seq<Event>, slots: seq<Slot>, b: Book, used: set<nat>, tx: nat)
    requires Consistent(trace, slots, b, used) && tx != 0 && tx !in used
    ensures Consistent(trace + [Created(tx)] + [Unregistered(tx)] + [Freed(tx)], slots,
                       b.(orphans := b.orphans + {tx}), used + {tx})
  {
    SoundDropped(trace, b, tx);
  }

  lemma Logs(trace: seq<Event>, slots: seq<Slot>, b: Book, used: set<nat>, k: nat)
    requires Consistent(trace, slots, b, used) && k < |slots| && !slots[k].logged
    ensures var tx := slots[k].tx;
            Consistent(trace + [Logged(tx)], slots[k := Slot(tx, true)], b.(held := b.held[tx := true]), used)
  {
    SoundLogged(trace, b, slots[k].tx);
    AgreesLogged(slots, b, k);
    assert b.held[slots[k].tx := true].Keys == b.held.Keys;
  }

  lemma LogsNothing(trace: seq<Event>, slots: seq<Slot>, b: Book, used: set<nat>)
    requires Consistent(trace, slots, b, used)
    ensures Consistent(trace + [Logged(0)], slots, b, used)
  {
    SoundLogged(trace, b, 0);
  }

  lemma Frees(trace: seq<Event>, slots: seq<Slot>, b: Book, used: set<nat>)
    requires Consistent(trace, slots, b, used) && slots != [] && slots[|slots| - 1].logged
    ensures var tx := slots[|slots| - 1].tx;
            Consistent(trace + [Freed(tx)], slots[..|slots| - 1], b.(held := b.held - {tx}, done := b.done + {tx}), used)
  {
    var tx := slots[|slots| - 1].tx;
    SoundFreed(trace, b, tx);
    AgreesFreed(slots, b);
    assert b.held.Keys == (b.held - {tx}).Keys + {tx};
  }

  // ---------- which transactions there are ----------

  /** What the environment answers while a context is made: whether there is memory and the
      configured id can be evaluated and copied, the engine's handle (0 for none), and whether
      the cleanup can be registered. */
  datatype Answers = Answers(enough: bool, evaluated: bool, tx: nat, registered: bool, copied: bool)

  datatype Step =
    | RewritePhase(enabled: bool, waf: bool, named: bool, answers: Answers, denied: bool)
    | InternalRedirect
    | LogPhase(enabled: bool)

  /** Whether the request has a context, the handles given out, and those registered. */
  datatype Course = Course(has: bool, given: set<nat>, registered: set<nat>)

  /** A transaction comes to be: nothing fails before it, and the engine gives a new handle. */
  predicate Creates(given: set<nat>, waf: bool, named: bool, a: Answers) {
    a.enough && waf && (named ==> a.evaluated) && a.tx != 0 && a.tx !in given
  }

  /** And a context with it: nothing fails after it either. */
  predicate Completes(given: set<nat>, waf: bool, named: bool, a: Answers) {
    Creates(given, waf, named, a) && a.registered && (named ==> a.copied)
  }

  function Makes(c: Course, waf: bool, named: bool, a: Answers): Course {
    if !Creates(c.given, waf, named, a) then c
    else Course(true, c.given + {a.tx}, if a.registered then c.registered + {a.tx} else c.registered)
  }

  function Takes(c: Course, s: Step): Course {
    match s
    case RewritePhase(enabled, waf, named, a, _) => if enabled && !c.has then Makes(c, waf, named, a) else c
    case InternalRedirect => c.(has := false)
    case LogPhase(_) => c
  }

  function CourseOf(steps: seq<Step>): Course {
    if steps == [] then Course(false, {}, {})
    else Takes(CourseOf(steps[..|steps| - 1]), steps[|steps| - 1])
  }

  lemma CourseNext(steps: seq<Step>, n: nat)
    requires n < |steps|
    ensures CourseOf(steps[..n + 1]) == Takes(CourseOf(steps[..n]), steps[n])
  {
    assert steps[..n + 1][..n] == steps[..n];
  }

  /** Step i gives out tx: the location is enabled, the request has no context, a WAF, memory
      and the configured id are there, and the engine answers with it. */
  ghost predicate GivesAt(steps: seq<Step>, i: nat, tx: nat)
    requires i < |steps|
  {
    && steps[i].RewritePhase? && steps[i].enabled && steps[i].waf && !CourseOf(steps[..i]).has
    && steps[i].answers.enough && (steps[i].named ==> steps[i].answers.evaluated) && steps[i].answers.tx == tx
  }

  /** The transactions of a run are those some step gives out; a disabled location makes none. */
  lemma {:induction false} GivenBy(steps: seq<Step>, tx: nat)
    requires tx != 0
    ensures tx in CourseOf(steps).given <==> exists i :: 0 <= i < |steps| && GivesAt(steps, i, tx)
  {
    if steps != [] {
      var n := |steps| - 1;
      GivenBy(steps[..n], tx);
      forall i | 0 <= i < n ensures GivesAt(steps[..n], i, tx) <==> GivesAt(steps, i, tx) {
        assert steps[..n][..i] == steps[..i];
      }
      if i :| 0 <= i < n && GivesAt(steps, i, tx) {
        assert GivesAt(steps[..n], i, tx);
      }
      assert tx in CourseOf(steps).given <==> tx in CourseOf(steps[..n]).given || GivesAt(steps, n, tx);
    }
  }

  /** A transaction has its cleanup registered exactly if the step that first gave it out could. */
  lemma {:induction false} RegisteredBy(steps: seq<Step>, tx: nat)
    requires tx != 0
    ensures tx in CourseOf(steps).registered <==>
              exists i :: 0 <= i < |steps| && GivesAt(steps, i, tx) && tx !in CourseOf(steps[..i]).given
                          && steps[i].answers.registered
    ensures tx in CourseOf(steps).registered ==> tx in CourseOf(steps).given
  {
    if steps != [] {
      var n := |steps| - 1;
      RegisteredBy(steps[..n], tx);
      forall i | 0 <= i < n
        ensures (GivesAt(steps[..n], i, tx) <==> GivesAt(steps, i, tx)) && steps[..n][..i] == steps[..i] && steps[..n][i] == steps[i]
      {
        assert steps[..n][..i] == steps[..i];
      }
      if i :| 0 <= i < n && GivesAt(steps, i, tx) && tx !in CourseOf(steps[..i]).given && steps[i].answers.registered {
        assert GivesAt(steps[..n], i, tx) && steps[..n][..i] == steps[..i];
      }
    }
  }

  class Context {
    var tx: nat                   // 0 for none
    var logged: bool
    constructor ()
      ensures tx == 0 && !logged
    {
      tx, logged := 0, false;
    }
  }

  ghost function SlotsOf(cs: seq<Context>): (slots: seq<Slot>)
    reads cs
  {
    seq(|cs|, i reads cs requires 0 <= i < |cs| => Slot(cs[i].tx, cs[i].logged))
  }

  lemma SlotsSnoc(cs: seq<Context>, c: Context)
    ensures SlotsOf(cs + [c]) == SlotsOf(cs) + [Slot(c.tx, c.logged)]
  {
  }

  class Request {
    var ctx: Context?             // the module's context, wiped by an internal redirect
    var cleanups: seq<Context>    // the pool's cleanup handlers, newest last
    var used: set<nat>            // handles the engine has given out
    ghost var trace: seq<Event>
    ghost var book: Book
    ghost var Repr: set<Context>  // every context made

    ghost predicate Valid()
      reads this, Repr
    {
      var valid :=
        && (forall c :: c in cleanups ==> c in Repr) && (ctx != null ==> ctx in Repr)
        && Consistent(trace, SlotsOf(cleanups), book, used) && (ctx != null ==> ctx in cleanups || ctx.tx == 0);
      valid
    }

    /** Which transactions there are, and which of them were registered. */
    ghost function Now(): Course
      reads this
    {
      Course(ctx != null, used, book.held.Keys + book.done)
    }

    constructor ()
      ensures Valid() && ctx == null && cleanups == [] && trace == [] && book == Book(map[], {}, {}) && Repr == {}
    {
      ctx, cleanups, used, trace, book, Repr := null, [], {}, [], Book(map[], {}, {}), {};
    }

    /** The engine gives a handle it has not given before, or none. */
    method NewTransaction(answer: nat) returns (tx: nat)
      modifies this`used, this`trace
      ensures tx == if answer in old(used) then 0 else answer
      ensures used == if tx == 0 then old(used) else old(used) + {tx}
      ensures trace == if tx == 0 then old(trace) else old(trace) + [Created(tx)]
    {
      tx := if answer in used then 0 else answer;
      if tx != 0 {
        used := used + {tx};
        trace := trace + [Created(tx)];
      }
    }

    method AddCleanup(c: Context, ok: bool)
      modifies this`cleanups, this`trace
      ensures cleanups == if ok then old(cleanups) + [c] else old(cleanups)
      ensures trace == old(trace) + [if ok then Registered(c.tx) else Unregistered(c.tx)]
    {
      if ok { cleanups := cleanups + [c]; }
      trace := trace + [if ok then Registered(c.tx) else Unregistered(c.tx)];
    }

    method ProcessLogging(tx: nat)
      modifies this`trace
      ensures trace == old(trace) + [Logged(tx)]
    {
      trace := trace + [Logged(tx)];
    }

    method FreeTransaction(tx: nat)
      modifies this`trace
      ensures trace == old(trace) + [Freed(tx)]
    {
      trace := trace + [Freed(tx)];
    }

    /** A new transaction's cleanup is registered. */
    method Register(c: Context, ghost trace0: seq<Event>, ghost used0: set<nat>)
      requires c.tx != 0 && c.tx !in used0 && !c.logged && c !in cleanups
      requires Consistent(trace0, SlotsOf(cleanups), book, used0) && trace == trace0 + [Created(c.tx)] && used == used0 + {c.tx}
      modifies this`cleanups, this`trace, this`book
      ensures Consistent(trace, SlotsOf(cleanups), book, used) && cleanups == old(cleanups) + [c]
      ensures book.held.Keys + book.done == old(book.held.Keys + book.done) + {c.tx}
    {
      ghost var slots0 := SlotsOf(cleanups);
      AddCleanup(c, true);
      Registers(trace0, slots0, book, used0, c.tx);
      book := book.(held := book.held[c.tx := false]);
      SlotsSnoc(old(cleanups), c);
    }

    /** Registering failed: a new transaction is freed on the spot. */
    method Abandon(c: Context, ghost trace0: seq<Event>, ghost used0: set<nat>)
      requires c.tx != 0 && c.tx !in used0 && c !in cleanups
      requires Consistent(trace0, SlotsOf(cleanups), book, used0) && trace == trace0 + [Created(c.tx)] && used == used0 + {c.tx}
      modifies this`cleanups, this`trace, this`book, c`tx
      ensures Consistent(trace, SlotsOf(cleanups), book, used) && cleanups == old(cleanups) && c.tx == 0
      ensures book.held.Keys + book.done == old(book.held.Keys + book.done)
    {
      ghost var slots0, tx := SlotsOf(cleanups), c.tx;
      AddCleanup(c, false);
      FreeTransaction(c.tx);
      c.tx := 0;
      Abandons(trace0, slots0, book, used0, tx);
      book := book.(orphans := book.orphans + {tx});
      assert SlotsOf(cleanups) == slots0;
    }

    /** Create a transaction for a context. From the moment there is one, either its cleanup is
        registered or it is freed on the spot. */
    method Adopt(c: Context, a: Answers) returns (ok: bool)
      requires Valid() && c !in Repr && c.tx == 0 && !c.logged
      modifies this, c`tx
      ensures Valid() && Repr == old(Repr) + {c}
      ensures Now() == Makes(old(Now()), true, false, a.(enough := true))
      ensures ok == (a.tx != 0 && a.tx !in old(used) && a.registered)
      ensures ok ==> ctx == c && c.tx == a.tx && c in cleanups
    {
      Repr := Repr + {c};
      ghost var trace0, slots0, used0 := trace, SlotsOf(cleanups), used;
      var tx := NewTransaction(a.tx);
      if tx == 0 { return false; }
      c.tx := tx;
      ctx := c;
      ok := a.registered;
      assert SlotsOf(cleanups) == slots0;
      if ok {
        Register(c, trace0, used0);
      } else {
        Abandon(c, trace0, used0);
      }
    }

    /** Make a context for the request; every step of it can fail. */
    method CreateCtx(waf: bool, named: bool, a: Answers) returns (c: Context?)
      requires Valid()
      modifies this
      ensures Valid() && fresh(Repr - old(Repr)) && Now() == Makes(old(Now()), waf, named, a)
      ensures c != null <==> Completes(old(used), waf, named, a)
      ensures c != null ==> ctx == c && c in cleanups && c.tx == a.tx && !c.logged
    {
      c := null;
      if !a.enough || !waf { return; }
      if named && !a.evaluated { return; }
      var made := new Context();
      var ok := Adopt(made, a);
      if !ok { return; }
      if named && !a.copied { return; }
      c := made;
    }

    /** Log a context's transaction and claim it. */
    method Log(c: Context)
      requires Valid() && (c in cleanups || c.tx == 0) && !c.logged
      modifies this`trace, this`book, c`logged
      ensures Valid() && c.logged && Now() == old(Now())
      ensures trace == old(trace) + [Logged(c.tx)]
    {
      ghost var trace0, slots0 := trace, SlotsOf(cleanups);
      ghost var k := IndexOf(c);
      ProcessLogging(c.tx);
      c.logged := true;
      NoteLogged(c.tx, k, trace0, slots0);
    }

    /** Where a context is registered, and that it is so only once. */
    lemma IndexOf(c: Context) returns (k: nat)
      requires Consistent(trace, SlotsOf(cleanups), book, used)
      ensures if c in cleanups then k < |cleanups| && cleanups[k] == c else k == |cleanups|
      ensures forall i :: 0 <= i < |cleanups| && i != k ==> cleanups[i] != c
    {
      if c in cleanups {
        k :| 0 <= k < |cleanups| && cleanups[k] == c;
        var slots := SlotsOf(cleanups);
        assert forall i :: 0 <= i < |cleanups| ==> slots[i].tx == cleanups[i].tx;
      } else {
        k := |cleanups|;
      }
    }

    ghost method NoteLogged(tx: nat, k: nat, trace0: seq<Event>, slots0: seq<Slot>)
      requires Consistent(trace0, slots0, book, used) && trace == trace0 + [Logged(tx)]
      requires k < |slots0| ==> slots0[k] == Slot(tx, false) && SlotsOf(cleanups) == slots0[k := Slot(tx, true)]
      requires k >= |slots0| ==> tx == 0 && SlotsOf(cleanups) == slots0
      modifies this`book
      ensures Consistent(trace, SlotsOf(cleanups), book, used) && book.held.Keys + book.done == old(book.held.Keys + book.done)
    {
      if k < |slots0| {
        Logs(trace0, slots0, book, used, k);
        book := book.(held := book.held[tx := true]);
      } else {
        LogsNothing(trace0, slots0, book, used);
      }
    }

    /** The log phase. */
    method LogHandler(enabled: bool)
      requires Valid()
      modifies this`trace, this`book, Repr
      ensures Valid() && Now() == old(Now())
      ensures enabled && ctx != null ==> ctx.logged
      ensures ctx != null ==> ctx.tx == old(ctx.tx)
      ensures !enabled || ctx == null || old(ctx.logged) ==> trace == old(trace)
      ensures !(!enabled || ctx == null || old(ctx.logged)) ==> trace == old(trace) + [Logged(ctx.tx)]
    {
      if !enabled { return; }
      if ctx == null { return; }
      if ctx.logged { return; }
      Log(ctx);
    }

    /** The rewrite phase: the first entry makes the context and looks at the request headers;
        a verdict there is logged at once. */
    method Rewrite(enabled: bool, waf: bool, named: bool, a: Answers, denied: bool)
      requires Valid()
      modifies this, Repr
      ensures Valid() && fresh(Repr - old(Repr)) && Now() == Takes(old(Now()), RewritePhase(enabled, waf, named, a, denied))
      ensures enabled && old(ctx) == null && Completes(old(used), waf, named, a) ==>
                ctx != null && ctx.tx == a.tx && ctx.logged == denied && StageOf(trace, a.tx) == if denied then LiveLogged else Live
    {
      if !enabled || ctx != null { return; }
      var c := CreateCtx(waf, named, a);
      if c == null { return; }
      if denied {
        EarlyLog(c);
      }
      StageHeld(c);
    }

    lemma StageHeld(c: Context)
      requires Valid() && c in cleanups
      ensures StageOf(trace, c.tx) == if c.logged then LiveLogged else Live
    {
      var k :| 0 <= k < |cleanups| && cleanups[k] == c;
      assert SlotsOf(cleanups)[k] == Slot(c.tx, c.logged);
    }

    /** A verdict on the request headers is logged at once, and the context claimed. */
    method EarlyLog(c: Context)
      requires Valid() && ctx == c && !c.logged
      modifies this`trace, this`book, Repr
      ensures Valid() && Now() == old(Now()) && c.logged && c.tx == old(c.tx) && trace == old(trace) + [Logged(c.tx)]
    {
      LogHandler(true);
      c.logged := true;
    }

    /** An internal redirect forgets the context. */
    method Redirect()
      requires Valid()
      modifies this`ctx
      ensures Valid() && Now() == old(Now()).(has := false)
    {
      ctx := null;
    }

    /** The newest cleanup handler runs: a last chance to log, then the transaction is freed. */
    method Cleanup()
      requires Valid() && cleanups != [] && ctx == null
      modifies this`trace, this`book, this`cleanups, Repr
      ensures Valid() && |cleanups| == |old(cleanups)| - 1 && Now() == old(Now())
    {
      var c := cleanups[|cleanups| - 1];
      if !c.logged {
        Log(c);
      }
      Free(c);
    }

    method Free(c: Context)
      requires Valid() && cleanups != [] && ctx == null && c == cleanups[|cleanups| - 1] && c.logged
      modifies this`trace, this`book, this`cleanups
      ensures Valid() && cleanups == old(cleanups)[..|old(cleanups)| - 1] && Now() == old(Now())
    {
      ghost var slots, trace0, tx := SlotsOf(cleanups), trace, c.tx;
      FreeTransaction(c.tx);
      cleanups := cleanups[..|cleanups| - 1];
      Frees(trace0, slots, book, used);
      assert book.held.Keys + book.done == (book.held - {tx}).Keys + (book.done + {tx});
      book := book.(held := book.held - {tx}, done := book.done + {tx});
      assert SlotsOf(cleanups) == slots[..|slots| - 1];
    }

    /** The request is over: its pool runs the cleanup handlers, newest first. */
    method DestroyPool()
      requires Valid()
      modifies this, Repr
      ensures Valid() && cleanups == [] && Now() == old(Now()).(has := false)
    {
      ctx := null;
      while cleanups != []
        invariant Valid() && ctx == null && Repr == old(Repr)
        invariant Now() == old(Now()).(has := false)
        decreases |cleanups|
      {
        Cleanup();
      }
    }
  }

  /** Each transaction given out was created once and freed once: logged before that if it was
      registered, and at once if it could not be. */
  ghost predicate Settled(trace: seq<Event>, c: Course) {
    forall tx :: tx != 0 ==>
      StageOf(trace, tx) == if tx !in c.given then Unborn else if tx in c.registered then Gone else Dropped
  }

  lemma SettledCounts(trace: seq<Event>, c: Course, tx: nat)
    requires Settled(trace, c) && tx != 0
    ensures Occurs(trace, Created(tx)) == Occurs(trace, Freed(tx)) == if tx in c.given then 1 else 0
    ensures Occurs(trace, Logged(tx)) == Occurs(trace, Registered(tx)) == if tx in c.given && tx in c.registered then 1 else 0
  {
    StageCounts(trace, tx);
  }

  lemma Settles(trace: seq<Event>, b: Book, used: set<nat>)
    requires Consistent(trace, [], b, used)
    ensures Settled(trace, Course(false, used, b.held.Keys + b.done))
  {
    assert b.held.Keys == {};
  }

  /** Any run of a request, to its end. */
  method LiveThrough(steps: seq<Step>) returns (r: Request)
    ensures Settled(r.trace, CourseOf(steps))
  {
    r := new Request();
    for i := 0 to |steps|
      invariant r.Valid() && fresh(r) && fresh(r.Repr) && r.Now() == CourseOf(steps[..i])
    {
      CourseNext(steps, i);
      match steps[i] {
        case RewritePhase(enabled, waf, named, a, denied) => r.Rewrite(enabled, waf, named, a, denied);
        case InternalRedirect => r.Redirect();
        case LogPhase(enabled) => r.LogHandler(enabled);
      }
    }
    assert steps[..|steps|] == steps;
    r.DestroyPool();
    assert SlotsOf(r.cleanups) == [];
    Settles(r.trace, r.book, r.used);
  }
}
