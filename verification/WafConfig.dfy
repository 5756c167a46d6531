/**
Rule inheritance down the configuration tree. Rule arrays are objects because the
code compares them by pointer as well as by content.
 */
module WafConfig {

  datatype Kind = Inline | File
  datatype Entry = Entry(kind: Kind, value: string)

  /** A rules array; nothing writes to it once the directives have been read. */
  class Rules {
    const entries: seq<Entry>
    constructor (entries: seq<Entry>)
      ensures this.entries == entries
    {
      this.entries := entries;
    }
  }

  class LocConf {
    var rules: Rules
    var hasRules: bool
    var waf: nat
    var wafOwner: bool

    constructor (rules: Rules)
      ensures this.rules == rules && hasRules == (rules.entries != []) && waf == 0 && !wafOwner
    {
      this.rules, hasRules, waf, wafOwner := rules, rules.entries != [], 0, false;
    }

    ghost predicate Consistent()
      reads this
    {
      hasRules <==> rules.entries != []
    }
  }

  // ---------- inheritance ----------

  /** Merge a parent's rules in front of a child's. */
  method MergeConf(p: LocConf, c: LocConf)
    requires p != c && p.Consistent() && c.Consistent()
    modifies c`rules, c`hasRules
    ensures c.rules.entries == p.rules.entries + old(c.rules.entries)
    ensures c.Consistent()
    ensures old(c.rules.entries) == [] && p.rules.entries != [] ==> c.rules == p.rules
    ensures c.rules in {p.rules, old(c.rules)} || fresh(c.rules)
  {
    if |p.rules.entries| > 0 {
      if |c.rules.entries| > 0 {
        c.rules := new Rules(p.rules.entries + c.rules.entries);
        c.hasRules := true;
      } else {
        c.rules := p.rules;
        if p.hasRules { c.hasRules := true; }
      }
    }
  }

  /** A configuration tree, parents before children: node 0 is the root and node i's
      parent is `up[i] < i`. */
  ghost predicate IsTree(up: seq<nat>, n: nat) {
    n > 0 && |up| == n && forall i :: 0 < i < n ==> up[i] < i
  }

  /** The entries declared on the path from the root to node i, in that order. */
  ghost function PathRules(up: seq<nat>, declared: seq<seq<Entry>>, i: nat): seq<Entry>
    requires IsTree(up, |declared|) && i < |declared|
  {
    if i == 0 then declared[0] else PathRules(up, declared, up[i]) + declared[i]
  }

  /** A location's rules begin with its parent's, and with the root's, and end with its own. */
  lemma {:induction false} ParentsFirst(up: seq<nat>, declared: seq<seq<Entry>>, i: nat)
    requires IsTree(up, |declared|) && 0 < i < |declared|
    ensures PathRules(up, declared, up[i]) <= PathRules(up, declared, i) && declared[0] <= PathRules(up, declared, i)
    ensures PathRules(up, declared, i)[|PathRules(up, declared, up[i])|..] == declared[i]
  {
    if up[i] > 0 { ParentsFirst(up, declared, up[i]); }
  }

  ghost predicate Distinct(confs: seq<LocConf>) {
    forall i, j :: 0 <= i < j < |confs| ==> confs[i] != confs[j]
  }

  ghost function Declared(confs: seq<LocConf>): (d: seq<seq<Entry>>)
    reads confs
    ensures |d| == |confs| && forall i :: 0 <= i < |confs| ==> d[i] == confs[i].rules.entries
  {
    seq(|confs|, i reads confs requires 0 <= i < |confs| => confs[i].rules.entries)
  }

  ghost predicate AllConsistent(confs: seq<LocConf>)
    reads confs
  {
    forall i :: 0 <= i < |confs| ==> confs[i].Consistent()
  }

  ghost predicate NoWaf(confs: seq<LocConf>)
    reads confs
  {
    forall i :: 0 <= i < |confs| ==> confs[i].waf == 0 && !confs[i].wafOwner
  }

  /** One merge, seen on the list of all rule sequences. */
  method MergeNode(confs: seq<LocConf>, p: nat, i: nat)
    requires Distinct(confs) && AllConsistent(confs) && NoWaf(confs) && p < i < |confs|
    modifies confs[i]
    ensures Declared(confs) == old(Declared(confs))[i := old(Declared(confs))[p] + old(Declared(confs))[i]]
    ensures AllConsistent(confs) && NoWaf(confs)
  {
    MergeConf(confs[p], confs[i]);
  }

  /** Top-down merging gives every node the concatenation along its path. */
  method MergeTree(confs: seq<LocConf>, up: seq<nat>)
    requires Distinct(confs) && IsTree(up, |confs|) && AllConsistent(confs) && NoWaf(confs)
    modifies confs
    ensures forall i :: 0 <= i < |confs| ==> confs[i].rules.entries == PathRules(up, old(Declared(confs)), i)
    ensures AllConsistent(confs) && NoWaf(confs)
  {
    ghost var d := Declared(confs);
    ghost var cur := d;
    var i := 1;
    while i < |confs|
      invariant 1 <= i <= |confs| == |d|
      invariant Declared(confs) == cur && AllConsistent(confs) && NoWaf(confs)
      invariant forall k :: 0 <= k < i ==> cur[k] == PathRules(up, d, k)
      invariant forall k :: i <= k < |cur| ==> cur[k] == d[k]
    {
      MergeNode(confs, up[i], i);
      cur := cur[i := cur[up[i]] + cur[i]];
      i := i + 1;
    }
  }
}
