/**
Building WAFs in a worker: one per distinct rule sequence, shared by handle, with
one owner responsible for freeing each.
 */
module WafSharing {
  import opened WafConfig

  /** A location as the build loop sees it. */
  datatype Loc = Loc(rules: Rules, waf: nat, owner: bool)

  ghost function View(confs: seq<LocConf>): (v: seq<Loc>)
    reads confs
    ensures |v| == |confs|
    ensures forall i :: 0 <= i < |v| ==> v[i] == Loc(confs[i].rules, confs[i].waf, confs[i].wafOwner)
  {
    seq(|confs|, i reads confs requires 0 <= i < |confs| => Loc(confs[i].rules, confs[i].waf, confs[i].wafOwner))
  }

  ghost function RulesOf(v: seq<Loc>): seq<Rules> {
    seq(|v|, i requires 0 <= i < |v| => v[i].rules)
  }

  /** A WAF being configured. */
  class Config {
    ghost var entries: seq<Entry>
    ghost var freed: bool
    constructor ()
      ensures entries == [] && !freed
    {
      entries, freed := [], false;
    }
  }

  /** What the engine has handed out and taken back: the rules each handle was compiled
      from, the handles freed, in order, and how many configurations are open. */
  class Engine {
    ghost var built: map<nat, seq<Entry>>
    ghost var freed: seq<nat>
    ghost var open: nat
    ghost var failures: nat       // builds that failed
    var next: nat

    ghost predicate Valid()
      reads this
    {
      forall h :: h in built ==> 0 < h <= next
    }

    constructor ()
      ensures Valid() && built == map[] && freed == [] && open == 0 && failures == 0
    {
      built, freed, open, failures, next := map[], [], 0, 0, 0;
    }

    method NewConfig() returns (config: Config?)
      modifies this`open, this`failures
      ensures config != null ==> fresh(config) && config.entries == [] && !config.freed
      ensures open == old(open) + if config == null then 0 else 1
      ensures failures == old(failures) + if config == null then 1 else 0
    {
      if * {
        failures := failures + 1;
        return null;
      }
      config := new Config();
      open := open + 1;
    }

    /** Add inline rules, or fail, be it for want of memory. */
    method RulesAdd(config: Config, text: string) returns (ok: bool)
      requires !config.freed
      modifies this`failures, config`entries
      ensures config.entries == old(config.entries) + if ok then [Entry(Inline, text)] else []
      ensures failures == old(failures) + if ok then 0 else 1
    {
      ok := *;
      if ok { config.entries := config.entries + [Entry(Inline, text)]; } else { failures := failures + 1; }
    }

    /** Add a rules file, or fail likewise. */
    method RulesAddFile(config: Config, path: string) returns (ok: bool)
      requires !config.freed
      modifies this`failures, config`entries
      ensures config.entries == old(config.entries) + if ok then [Entry(File, path)] else []
      ensures failures == old(failures) + if ok then 0 else 1
    {
      ok := *;
      if ok { config.entries := config.entries + [Entry(File, path)]; } else { failures := failures + 1; }
    }

    method FreeConfig(config: Config)
      requires !config.freed && open > 0
      modifies this`open, config`freed
      ensures config.freed && open == old(open) - 1
    {
      config.freed := true;
      open := open - 1;
    }

    /** Compile a configuration to a fresh handle, or fail with 0. */
    method NewWaf(config: Config) returns (h: nat)
      requires Valid() && !config.freed
      modifies this`built, this`failures, this`next
      ensures Valid()
      ensures h == 0 ==> built == old(built)
      ensures h != 0 ==> h !in old(built) && built == old(built)[h := config.entries]
      ensures failures == old(failures) + if h == 0 then 1 else 0
    {
      if * {
        failures := failures + 1;
        return 0;
      }
      next := next + 1;
      h := next;
      built := built[h := config.entries];
    }

    method FreeWaf(h: nat)
      modifies this`freed
      ensures freed == old(freed) + [h]
    {
      freed := freed + [h];
    }
  }

  /** Add every entry in order, stopping at the first that fails. */
  method AddEntries(e: Engine, config: Config, entries: seq<Entry>) returns (ok: bool)
    requires !config.freed && config.entries == []
    modifies e`failures, config`entries
    ensures ok ==> config.entries == entries
    ensures e.failures == old(e.failures) + if ok then 0 else 1
  {
    for i := 0 to |entries|
      invariant config.entries == entries[..i] && e.failures == old(e.failures)
    {
      if entries[i].kind == Inline {
        ok := e.RulesAdd(config, entries[i].value);
      } else {
        ok := e.RulesAddFile(config, entries[i].value);
      }
      if !ok { return; }
    }
    ok := true;
  }

  /** Compile a list of entries; on every path the configuration made for it is freed. */
  method CompileEntries(e: Engine, entries: seq<Entry>) returns (h: nat)
    requires e.Valid()
    modifies e`built, e`open, e`failures, e`next
    ensures e.Valid() && e.open == old(e.open)
    ensures h == 0 ==> e.built == old(e.built)
    ensures h != 0 ==> h !in old(e.built) && e.built == old(e.built)[h := entries]
    ensures e.failures == old(e.failures) + if h == 0 then 1 else 0
  {
    var config := e.NewConfig();
    if config == null { return 0; }
    var ok := AddEntries(e, config, entries);
    if !ok {
      e.FreeConfig(config);
      return 0;
    }
    h := e.NewWaf(config);
    e.FreeConfig(config);
  }

  method BuildWaf(e: Engine, rules: Rules) returns (h: nat)
    requires e.Valid()
    modifies e`built, e`open, e`failures, e`next
    ensures e.Valid() && e.open == old(e.open)
    ensures h == 0 ==> e.built == old(e.built)
    ensures h != 0 ==> h !in old(e.built) && e.built == old(e.built)[h := rules.entries]
    ensures e.failures == old(e.failures) + if h == 0 && rules.entries != [] then 1 else 0
  {
    if |rules.entries| == 0 { return 0; }
    h := CompileEntries(e, rules.entries);
  }

  /** Two rules arrays name the same WAF iff they hold the same entries in order. */
  method RulesEqual(a: Rules?, b: Rules?) returns (same: bool)
    ensures same <==> a == b || (a != null && b != null && a.entries == b.entries)
  {
    if a == b { return true; }
    if a == null || b == null || |a.entries| != |b.entries| { return false; }
    var i := 0;
    while i < |a.entries|
      invariant 0 <= i <= |a.entries| && a.entries[..i] == b.entries[..i]
    {
      if a.entries[i].kind != b.entries[i].kind
         || |a.entries[i].value| != |b.entries[i].value|
         || a.entries[i].value != b.entries[i].value
      {
        return false;
      }
      i := i + 1;
    }
    return true;
  }

  // ---------- what the build loop establishes ----------

  /** A moment of the build: the locations, the main rules and WAF, the handles built. */
  datatype Build = Build(v: seq<Loc>, mainRules: Rules, mainWaf: nat, built: map<nat, seq<Entry>>)

  ghost predicate NeedsOwn(b: Build, k: nat)
    requires k < |b.v|
  {
    b.v[k].rules.entries != [] && b.v[k].rules != b.mainRules
  }

  /** Location k has been given the WAF its rules call for. */
  ghost predicate Served(b: Build, k: nat)
    requires k < |b.v|
  {
    var l := b.v[k];
    if l.rules.entries == [] then l.waf == 0 && !l.owner
    else if l.rules == b.mainRules then l.waf == b.mainWaf && !l.owner
    else l.waf != b.mainWaf && l.waf in b.built && b.built[l.waf] == l.rules.entries
  }

  ghost predicate HasOwner(v: seq<Loc>, k: nat)
    requires k < |v|
  {
    v[k].owner || exists j :: 0 <= j < k && v[j].owner && v[j].waf == v[k].waf
                              && v[j].rules.entries == v[k].rules.entries
  }

  ghost predicate Owned(v: seq<Loc>, n: nat, h: nat)
    requires n <= |v|
  {
    exists k :: 0 <= k < n && v[k].owner && v[k].waf == h
  }

  /** The state after the first n locations: owners hold pairwise different handles and
      rule sequences, every borrower has an earlier owner, and every handle built so far
      is the main one or has an owner. */
  ghost predicate Shared(b: Build, n: nat)
    requires n <= |b.v|
  {
    match b
    case Build(v, mainRules, mainWaf, built) =>
      && mainWaf != 0 && mainWaf in built && built[mainWaf] == mainRules.entries && 0 !in built
      && (forall k :: 0 <= k < n ==> Served(b, k))
      && (forall k :: n <= k < |v| ==> v[k].waf == 0 && !v[k].owner)
      && (forall j, k :: 0 <= j < k < n && v[j].owner && v[k].owner ==>
            v[j].waf != v[k].waf && v[j].rules.entries != v[k].rules.entries)
      && (forall k :: 0 <= k < n && v[k].owner ==> v[k].waf != mainWaf)
      && (forall k :: 0 <= k < n && NeedsOwn(b, k) ==> HasOwner(v, k))
      && (forall h :: h in built && h != mainWaf ==> Owned(v, n, h))
  }

  lemma KeepsOwned(v: seq<Loc>, v': seq<Loc>, n: nat, h: nat)
    requires n < |v| == |v'| && v'[..n] == v[..n] && Owned(v, n, h)
    ensures Owned(v', n + 1, h)
  {
    var k :| 0 <= k < n && v[k].owner && v[k].waf == h;
    assert v'[k] == v'[..n][k] == v[..n][k];
  }

  lemma KeepsOwner(v: seq<Loc>, v': seq<Loc>, n: nat, k: nat)
    requires k < n <= |v| == |v'| && v'[..n] == v[..n] && HasOwner(v, k)
    ensures HasOwner(v', k)
  {
    assert forall j :: 0 <= j < n ==> v'[j] == v'[..n][j] == v[..n][j] == v[j];
  }

  /** Serving location n without building: skipped, given the main WAF, or borrowing. */
  lemma SharedWithoutBuild(b: Build, n: nat, waf: nat, j: nat)
    requires n < |b.v| && Shared(b, n)
    requires if b.v[n].rules.entries == [] then waf == 0
             else if b.v[n].rules == b.mainRules then waf == b.mainWaf
             else j < n && b.v[j].owner && b.v[j].waf == waf && b.v[j].rules.entries == b.v[n].rules.entries
    ensures Shared(b.(v := b.v[n := Loc(b.v[n].rules, waf, false)]), n + 1)
  {
    var v := b.v;
    var b' := b.(v := v[n := Loc(v[n].rules, waf, false)]);
    forall k | 0 <= k < n && NeedsOwn(b', k) ensures HasOwner(b'.v, k) {
      assert NeedsOwn(b, k);
      KeepsOwner(v, b'.v, n, k);
    }
    forall h | h in b.built && h != b.mainWaf ensures Owned(b'.v, n + 1, h) { KeepsOwned(v, b'.v, n, h); }
    if NeedsOwn(b, n) {
      assert b'.v[j] == v[j] && Served(b, j);
    }
    forall k | 0 <= k < n ensures Served(b', k) { assert Served(b, k); }
  }

  /** Serving location n by building a WAF no earlier owner has the rules of. */
  lemma SharedWithBuild(b: Build, n: nat, h: nat)
    requires n < |b.v| && Shared(b, n) && NeedsOwn(b, n)
    requires h != 0 && h !in b.built
    requires forall j :: 0 <= j < n && b.v[j].owner ==> b.v[j].rules.entries != b.v[n].rules.entries
    ensures Shared(b.(v := b.v[n := Loc(b.v[n].rules, h, true)],
                      built := b.built[h := b.v[n].rules.entries]), n + 1)
  {
    var v := b.v;
    var b' := b.(v := v[n := Loc(v[n].rules, h, true)], built := b.built[h := v[n].rules.entries]);
    forall k | 0 <= k < n && NeedsOwn(b', k) ensures HasOwner(b'.v, k) {
      assert NeedsOwn(b, k);
      KeepsOwner(v, b'.v, n, k);
    }
    forall g | g in b'.built && g != b.mainWaf ensures Owned(b'.v, n + 1, g) {
      if g == h { assert b'.v[n].owner; } else { KeepsOwned(v, b'.v, n, g); }
    }
    forall k | 0 <= k < n ensures Served(b', k) { assert Served(b, k); }
    forall k | 0 <= k < n && v[k].owner ensures v[k].waf != h { assert Served(b, k); }
  }

  // ---------- the worker's two hooks ----------

  class MainConf {
    var waf: nat
    const rules: Rules
    constructor (rules: Rules)
      ensures waf == 0 && this.rules == rules
    {
      waf, this.rules := 0, rules;
    }
  }

  ghost function Now(e: Engine, m: MainConf, confs: seq<LocConf>): Build
    reads e, m, confs
  {
    Build(View(confs), m.rules, m.waf, e.built)
  }

  method FindDonor(confs: seq<LocConf>, i: nat) returns (j: nat)
    requires i < |confs|
    ensures j <= i
    ensures j < i ==> confs[j].wafOwner && confs[j].waf != 0 && confs[j].rules.entries == confs[i].rules.entries
    ensures j == i ==> forall k :: 0 <= k < i && confs[k].wafOwner && confs[k].waf != 0 ==>
                         confs[k].rules.entries != confs[i].rules.entries
  {
    j := 0;
    while j < i
      invariant j <= i
      invariant forall k :: 0 <= k < j && confs[k].wafOwner && confs[k].waf != 0 ==>
                  confs[k].rules.entries != confs[i].rules.entries
    {
      if confs[j].wafOwner && confs[j].waf != 0 {
        var same := RulesEqual(confs[j].rules, confs[i].rules);
        if same { return; }
      }
      j := j + 1;
    }
  }

  /** Store what location i was given. */
  method Assign(confs: seq<LocConf>, i: nat, waf: nat, owner: bool)
    requires i < |confs| && Distinct(confs) && AllConsistent(confs)
    modifies confs[i]
    ensures View(confs) == old(View(confs))[i := Loc(old(confs[i].rules), waf, owner)]
    ensures AllConsistent(confs)
  {
    confs[i].waf, confs[i].wafOwner := waf, owner;
  }

  /** Hand location i a WAF that already exists: the main one, or an earlier owner's. */
  method Lend(e: Engine, m: MainConf, confs: seq<LocConf>, i: nat, waf: nat, ghost j: nat)
    requires Distinct(confs) && AllConsistent(confs) && i < |confs| && Shared(Now(e, m, confs), i)
    requires confs[i].rules.entries != []
    requires if confs[i].rules == m.rules then waf == m.waf
             else j < i && confs[j].wafOwner && confs[j].waf == waf && confs[j].rules.entries == confs[i].rules.entries
    modifies confs[i]
    ensures Shared(Now(e, m, confs), i + 1) && AllConsistent(confs)
    ensures RulesOf(View(confs)) == old(RulesOf(View(confs)))
  {
    SharedWithoutBuild(Now(e, m, confs), i, waf, j);
    Assign(confs, i, waf, false);
  }

  /** One turn of the build loop. A failed build leaves location i without a WAF. */
  method Serve(e: Engine, m: MainConf, confs: seq<LocConf>, i: nat) returns (ok: bool)
    requires Distinct(confs) && AllConsistent(confs) && i < |confs|
    requires e.Valid() && Shared(Now(e, m, confs), i)
    modifies e, confs[i]
    ensures e.Valid() && Shared(Now(e, m, confs), if ok then i + 1 else i)
    ensures AllConsistent(confs)
    ensures e.freed == old(e.freed) && RulesOf(View(confs)) == old(RulesOf(View(confs)))
    ensures e.failures == old(e.failures) + if ok then 0 else 1
    ensures e.open == old(e.open)
  {
    var lcf := confs[i];
    ok := true;
    if !lcf.hasRules || |lcf.rules.entries| == 0 {
      ghost var b := Now(e, m, confs);
      SharedWithoutBuild(b, i, 0, 0);
      assert b.v == b.v[i := Loc(b.v[i].rules, 0, false)];
    } else if lcf.rules == m.rules && m.waf != 0 {
      Lend(e, m, confs, i, m.waf, 0);
    } else {
      var j := FindDonor(confs, i);
      if j < i {
        Lend(e, m, confs, i, confs[j].waf, j);
      } else {
        ok := ServeByBuilding(e, m, confs, i);
      }
    }
  }

  method ServeByBuilding(e: Engine, m: MainConf, confs: seq<LocConf>, i: nat) returns (ok: bool)
    requires Distinct(confs) && AllConsistent(confs) && i < |confs|
    requires e.Valid() && Shared(Now(e, m, confs), i) && NeedsOwn(Now(e, m, confs), i)
    requires forall k :: 0 <= k < i && confs[k].wafOwner && confs[k].waf != 0 ==>
               confs[k].rules.entries != confs[i].rules.entries
    modifies e, confs[i]
    ensures e.Valid() && Shared(Now(e, m, confs), if ok then i + 1 else i)
    ensures AllConsistent(confs)
    ensures e.freed == old(e.freed) && RulesOf(View(confs)) == old(RulesOf(View(confs)))
    ensures e.failures == old(e.failures) + if ok then 0 else 1
    ensures e.open == old(e.open)
  {
    ghost var b := Now(e, m, confs);
    forall k | 0 <= k < i && b.v[k].owner ensures b.v[k].waf != 0 { assert Served(b, k); }
    var h := BuildWaf(e, confs[i].rules);
    if h == 0 {
      Assign(confs, i, 0, confs[i].wafOwner);
      assert View(confs) == b.v;
      return false;
    }
    SharedWithBuild(b, i, h);
    Assign(confs, i, h, true);
    return true;
  }

  method BuildMain(e: Engine, m: MainConf) returns (ok: bool)
    requires e.Valid() && e.built == map[] && m.waf == 0
    modifies e, m
    ensures e.Valid() && e.freed == old(e.freed) && (ok <==> m.waf != 0)
    ensures e.built == if ok then map[m.waf := m.rules.entries] else map[]
    ensures e.failures == old(e.failures) + if ok then 0 else 1
    ensures e.open == old(e.open)
  {
    if |m.rules.entries| > 0 {
      m.waf := BuildWaf(e, m.rules);
    } else {
      m.waf := CompileEntries(e, []);
    }
    ok := m.waf != 0;
  }

  lemma SharedAtStart(b: Build)
    requires b.mainWaf != 0 && b.built == map[b.mainWaf := b.mainRules.entries]
    requires forall k :: 0 <= k < |b.v| ==> b.v[k].waf == 0 && !b.v[k].owner
    ensures Shared(b, 0)
  {
  }

  method ServeAll(e: Engine, m: MainConf, confs: seq<LocConf>) returns (ok: bool, ghost n: nat)
    requires Distinct(confs) && AllConsistent(confs) && e.Valid() && Shared(Now(e, m, confs), 0)
    modifies e, confs
    ensures n <= |confs| && (ok ==> n == |confs|) && Shared(Now(e, m, confs), n)
    ensures e.failures == old(e.failures) + if ok then 0 else 1
    ensures e.open == old(e.open)
    ensures e.freed == old(e.freed) && RulesOf(View(confs)) == old(RulesOf(View(confs)))
  {
    ghost var rs, freed := RulesOf(View(confs)), e.freed;
    for i := 0 to |confs|
      invariant AllConsistent(confs) && e.Valid() && Shared(Now(e, m, confs), i)
      invariant e.freed == freed && RulesOf(View(confs)) == rs && e.failures == old(e.failures) && e.open == old(e.open)
    {
      ok := Serve(e, m, confs, i);
      if !ok { return ok, i; }
    }
    return true, |confs|;
  }

  /** Build the WAFs of a worker. The first n locations are served: all of them on
      success, those before the failed build otherwise; without a main WAF nothing is built. */
  method InitProcess(e: Engine, m: MainConf, confs: seq<LocConf>) returns (ok: bool, ghost n: nat)
    requires e.Valid() && e.built == map[] && m.waf == 0
    requires Distinct(confs) && AllConsistent(confs) && NoWaf(confs)
    modifies e, m, confs
    ensures n <= |confs| && (ok ==> m.waf != 0 && n == |confs|)
    ensures e.failures == old(e.failures) + if ok then 0 else 1
    ensures e.open == old(e.open)
    ensures m.waf != 0 ==> Shared(Now(e, m, confs), n)
    ensures m.waf == 0 ==> NoWaf(confs) && e.built == map[]
    ensures e.freed == old(e.freed) && RulesOf(View(confs)) == old(RulesOf(View(confs)))
  {
    n := 0;
    ok := BuildMain(e, m);
    if ok {
      SharedAtStart(Now(e, m, confs));
      ok, n := ServeAll(e, m, confs);
    }
  }

  /** The handles the owners among the first n locations hold. */
  ghost function OwnersWafs(v: seq<Loc>, n: nat, mainWaf: nat): seq<nat>
    requires n <= |v|
  {
    if n == 0 then []
    else
      var l := v[n - 1];
      OwnersWafs(v, n - 1, mainWaf) + if l.owner && l.waf != 0 && l.waf != mainWaf then [l.waf] else []
  }

  /** Free what the owners hold, clear every location, free the main WAF. */
  method ExitProcess(e: Engine, m: MainConf, confs: seq<LocConf>)
    modifies e, m, confs
    ensures e.freed == old(e.freed) + OwnersWafs(old(View(confs)), |confs|, old(m.waf))
                       + if old(m.waf) != 0 then [old(m.waf)] else []
    ensures e.built == old(e.built) && e.open == old(e.open) && NoWaf(confs) && m.waf == 0
  {
    FreeOwners(e, m, confs);
    ClearAll(confs);
    if m.waf != 0 {
      e.FreeWaf(m.waf);
      m.waf := 0;
    }
  }

  method FreeOwners(e: Engine, m: MainConf, confs: seq<LocConf>)
    modifies e`freed
    ensures e.freed == old(e.freed) + OwnersWafs(View(confs), |confs|, m.waf)
  {
    var i := 0;
    ghost var v := View(confs);
    while i < |confs|
      invariant 0 <= i <= |confs| && e.freed == old(e.freed) + OwnersWafs(v, i, m.waf)
    {
      var lcf := confs[i];
      if lcf.wafOwner && lcf.waf != 0 && lcf.waf != m.waf {
        e.FreeWaf(lcf.waf);
      }
      i := i + 1;
    }
  }

  method ClearAll(confs: seq<LocConf>)
    modifies confs
    ensures NoWaf(confs)
  {
    var i := 0;
    while i < |confs|
      invariant 0 <= i <= |confs| && forall k :: 0 <= k < i ==> confs[k].waf == 0 && !confs[k].wafOwner
    {
      confs[i].waf, confs[i].wafOwner := 0, false;
      i := i + 1;
    }
  }

  // ---------- ownership ----------

  /** Every handle of `hs` occurs exactly once in `freed`, and nothing else does. */
  ghost predicate ExactlyOnce(freed: seq<nat>, hs: set<nat>) {
    && (forall i, j :: 0 <= i < j < |freed| ==> freed[i] != freed[j])
    && (forall h :: h in hs <==> h in freed)
  }

  lemma {:induction false} OwnersWafsExact(b: Build, n: nat, k: nat)
    requires k <= n <= |b.v| && Shared(b, n)
    ensures forall i, j :: 0 <= i < j < |OwnersWafs(b.v, k, b.mainWaf)| ==>
              OwnersWafs(b.v, k, b.mainWaf)[i] != OwnersWafs(b.v, k, b.mainWaf)[j]
    ensures forall h :: h in OwnersWafs(b.v, k, b.mainWaf) <==> Owned(b.v, k, h)
    decreases k
  {
    if k > 0 {
      var ws, l := OwnersWafs(b.v, k - 1, b.mainWaf), b.v[k - 1];
      OwnersWafsExact(b, n, k - 1);
      assert Served(b, k - 1);
      assert l.owner ==> l.waf !in ws;
      forall h ensures h in OwnersWafs(b.v, k, b.mainWaf) <==> Owned(b.v, k, h) {
        assert Owned(b.v, k, h) <==> Owned(b.v, k - 1, h) || (l.owner && l.waf == h);
      }
    }
  }

  lemma {:induction false} OwnersWafsIdle(v: seq<Loc>, n: nat, k: nat, mainWaf: nat)
    requires n <= k <= |v| && forall i :: n <= i < k ==> v[i].waf == 0 && !v[i].owner
    ensures OwnersWafs(v, k, mainWaf) == OwnersWafs(v, n, mainWaf)
    decreases k
  {
    if k > n { OwnersWafsIdle(v, n, k - 1, mainWaf); }
  }

  /** Whatever turn the build loop stopped at, freeing the owners' handles and then the
      main one frees each handle built exactly once. */
  lemma {:induction false} FreedExactly(b: Build, n: nat)
    requires n <= |b.v| && Shared(b, n)
    ensures ExactlyOnce(OwnersWafs(b.v, |b.v|, b.mainWaf) + [b.mainWaf], b.built.Keys)
  {
    var ws := OwnersWafs(b.v, n, b.mainWaf);
    OwnersWafsExact(b, n, n);
    OwnersWafsIdle(b.v, n, |b.v|, b.mainWaf);
    forall h ensures h in b.built.Keys <==> h in ws + [b.mainWaf] {
      if Owned(b.v, n, h) {
        var i :| 0 <= i < n && b.v[i].owner && b.v[i].waf == h;
        assert Served(b, i);
      }
    }
    assert b.mainWaf !in ws;
  }

  lemma FreedOnExit(b: Build, n: nat)
    requires n <= |b.v|
    requires b.mainWaf != 0 ==> Shared(b, n)
    requires b.mainWaf == 0 ==> b.built == map[] && forall i :: 0 <= i < |b.v| ==> b.v[i].waf == 0 && !b.v[i].owner
    ensures ExactlyOnce([] + OwnersWafs(b.v, |b.v|, b.mainWaf) + if b.mainWaf != 0 then [b.mainWaf] else [],
                        b.built.Keys)
  {
    assert [] + OwnersWafs(b.v, |b.v|, b.mainWaf) == OwnersWafs(b.v, |b.v|, b.mainWaf);
    if b.mainWaf == 0 {
      OwnersWafsIdle(b.v, 0, |b.v|, 0);
    } else {
      FreedExactly(b, n);
    }
  }

  /** A worker's life, whatever build fails: init then exit. */
  method WorkerLife(e: Engine, m: MainConf, confs: seq<LocConf>) returns (ok: bool)
    requires e.Valid() && e.built == map[] && e.freed == [] && m.waf == 0
    requires Distinct(confs) && AllConsistent(confs) && NoWaf(confs)
    modifies e, m, confs
    ensures ExactlyOnce(e.freed, e.built.Keys)
    ensures NoWaf(confs) && m.waf == 0 && e.open == old(e.open)
  {
    ghost var n;
    ok, n := InitProcess(e, m, confs);
    FreedOnExit(Now(e, m, confs), n);
    ExitProcess(e, m, confs);
  }

  // ---------- meaning ----------

  /** The WAF a transaction in the location runs on. */
  ghost function Selected(l: Loc, mainWaf: nat): nat {
    if l.waf != 0 then l.waf else mainWaf
  }

  /** Every location served runs on a WAF compiled from its own rule sequence, or on the
      main one when it has none. */
  lemma SelectedMeaning(b: Build, i: nat)
    requires i < |b.v| && Shared(b, |b.v|)
    ensures var w := Selected(b.v[i], b.mainWaf);
            w in b.built
            && b.built[w] == if b.v[i].rules.entries == [] then b.mainRules.entries else b.v[i].rules.entries
  {
    assert Served(b, i);
  }

  lemma SelectedMeanings(b: Build, w: seq<Loc>)
    requires Shared(b, |b.v|) && b.mainRules.entries == [] && RulesOf(b.v) == RulesOf(w)
    ensures |w| == |b.v|
    ensures forall i :: 0 <= i < |w| ==>
              Selected(b.v[i], b.mainWaf) in b.built
              && b.built[Selected(b.v[i], b.mainWaf)] == w[i].rules.entries
  {
    assert |RulesOf(w)| == |w|;
    forall i | 0 <= i < |w|
      ensures Selected(b.v[i], b.mainWaf) in b.built
              && b.built[Selected(b.v[i], b.mainWaf)] == w[i].rules.entries
    {
      SelectedMeaning(b, i);
      assert RulesOf(b.v)[i] == b.v[i].rules && RulesOf(w)[i] == w[i].rules;
    }
  }

  /** Node i of the tree runs on a WAF compiled from exactly `entries`. */
  ghost predicate RunsOn(e: Engine, m: MainConf, c: LocConf, entries: seq<Entry>)
    reads e, m, c
  {
    var w := Selected(Loc(c.rules, c.waf, c.wafOwner), m.waf);
    w in e.built && e.built[w] == entries
  }

  /** Every location of a successful build runs on the rules it had before the build. */
  method BuildLocations(e: Engine, m: MainConf, locs: seq<LocConf>) returns (ok: bool)
    requires e.Valid() && e.built == map[] && m.waf == 0 && m.rules.entries == []
    requires Distinct(locs) && AllConsistent(locs) && NoWaf(locs)
    modifies e, m, locs
    ensures ok ==> forall i :: 0 <= i < |locs| ==> RunsOn(e, m, locs[i], old(locs[i].rules.entries))
    ensures e.failures == old(e.failures) + if ok then 0 else 1
    ensures e.open == old(e.open)
  {
    ghost var v := View(locs);
    ghost var n;
    ok, n := InitProcess(e, m, locs);
    if ok {
      SelectedMeanings(Now(e, m, locs), v);
    }
  }

  /** A configuration tree, merged top-down and built; the root is the http-level
      configuration, which no request selects, so the build list starts after it. The WAF
      selected for any location was compiled from exactly the entries declared on its path,
      the empty main WAF standing in when there are none. */
  method Configure(e: Engine, m: MainConf, confs: seq<LocConf>, up: seq<nat>) returns (ok: bool)
    requires e.Valid() && e.built == map[] && m.waf == 0 && m.rules.entries == []
    requires Distinct(confs) && IsTree(up, |confs|) && AllConsistent(confs) && NoWaf(confs)
    modifies e, m, confs
    ensures ok ==> forall i :: 1 <= i < |confs| ==>
              RunsOn(e, m, confs[i], PathRules(up, old(Declared(confs)), i))
    ensures e.failures == old(e.failures) + if ok then 0 else 1
    ensures e.open == old(e.open)
  {
    ghost var d := Declared(confs);
    MergeTree(confs, up);
    ghost var merged := Declared(confs);
    var locs := confs[1..];
    ok := BuildLocations(e, m, locs);
    if ok {
      forall i | 1 <= i < |confs| ensures RunsOn(e, m, confs[i], PathRules(up, d, i)) {
        assert locs[i - 1] == confs[i] && merged[i] == PathRules(up, d, i);
      }
    }
  }

  // ---------- minimality ----------

  ghost function OwnedHandles(b: Build, n: nat): set<nat>
    requires n <= |b.v|
  {
    set k | 0 <= k < n && b.v[k].owner :: b.v[k].waf
  }

  ghost function OwnSequences(b: Build, n: nat): set<seq<Entry>>
    requires n <= |b.v|
  {
    set k | 0 <= k < n && NeedsOwn(b, k) :: b.v[k].rules.entries
  }

  lemma AddsHandle(b: Build, k: nat)
    requires k < |b.v| && Shared(b, |b.v|) && b.v[k].owner
    ensures |OwnedHandles(b, k + 1)| == |OwnedHandles(b, k)| + 1
  {
    assert OwnedHandles(b, k + 1) == OwnedHandles(b, k) + {b.v[k].waf};
    assert b.v[k].waf !in OwnedHandles(b, k);
  }

  lemma AddsSequence(b: Build, k: nat)
    requires k < |b.v| && Shared(b, |b.v|) && b.v[k].owner
    ensures |OwnSequences(b, k + 1)| == |OwnSequences(b, k)| + 1
  {
    assert Served(b, k);
    forall i | 0 <= i < k && NeedsOwn(b, i) ensures b.v[i].rules.entries != b.v[k].rules.entries {
      assert HasOwner(b.v, i);
    }
    assert OwnSequences(b, k + 1) == OwnSequences(b, k) + {b.v[k].rules.entries};
    assert b.v[k].rules.entries !in OwnSequences(b, k);
  }

  lemma AddsBorrower(b: Build, k: nat)
    requires k < |b.v| && Shared(b, |b.v|) && !b.v[k].owner
    ensures OwnedHandles(b, k + 1) == OwnedHandles(b, k)
    ensures OwnSequences(b, k + 1) == OwnSequences(b, k)
  {
    var v := b.v;
    if NeedsOwn(b, k) {
      assert HasOwner(v, k);
      var j :| 0 <= j < k && v[j].owner && v[j].waf == v[k].waf && v[j].rules.entries == v[k].rules.entries;
      assert Served(b, j);
      assert v[j].rules.entries in OwnSequences(b, k);
    }
  }

  lemma {:induction false} OneHandlePerSequence(b: Build, k: nat)
    requires k <= |b.v| && Shared(b, |b.v|)
    ensures |OwnedHandles(b, k)| == |OwnSequences(b, k)|
    decreases k
  {
    if k == 0 {
      assert OwnedHandles(b, 0) == {} && OwnSequences(b, 0) == {};
    } else {
      OneHandlePerSequence(b, k - 1);
      if b.v[k - 1].owner {
        AddsHandle(b, k - 1);
        AddsSequence(b, k - 1);
      } else {
        AddsBorrower(b, k - 1);
      }
    }
  }

  /** After a successful build, the location WAFs are as many as the distinct non-empty rule
      sequences not shared by pointer with the main configuration. */
  lemma DedupIsMinimal(b: Build)
    requires Shared(b, |b.v|)
    ensures |b.built| == 1 + |OwnSequences(b, |b.v|)|
  {
    OneHandlePerSequence(b, |b.v|);
    var hs := OwnedHandles(b, |b.v|);
    forall h ensures h in b.built.Keys <==> h in hs + {b.mainWaf} {
      if h in hs {
        var i :| 0 <= i < |b.v| && b.v[i].owner && b.v[i].waf == h;
        assert Served(b, i);
      }
      if h in b.built && h != b.mainWaf { assert Owned(b.v, |b.v|, h); }
    }
    assert b.built.Keys == hs + {b.mainWaf} && b.mainWaf !in hs;
  }
}
