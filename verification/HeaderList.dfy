/**
nginx's header list: parts of elements, walked with a part and an index into it.
 */
module HeaderList {
  ghost function Flatten<T>(parts: seq<seq<T>>): seq<T> {
    if parts == [] then [] else Flatten(parts[..|parts| - 1]) + parts[|parts| - 1]
  }

  /** Every part after the first holds something. */
  ghost predicate IsList<T>(parts: seq<seq<T>>) {
    parts != [] && forall p :: 0 < p < |parts| ==> parts[p] != []
  }

  /** What has been walked when the walk stands before element i of part p. */
  ghost function Before<T>(parts: seq<seq<T>>, p: nat, i: nat): seq<T>
    requires p < |parts| && i <= |parts[p]|
  {
    Flatten(parts[..p]) + parts[p][..i]
  }

  lemma {:induction false} FlattenPrefix<T>(parts: seq<seq<T>>, p: nat)
    requires p <= |parts|
    ensures Flatten(parts[..p]) <= Flatten(parts)
    decreases |parts|
  {
    if p == |parts| {
      assert parts[..p] == parts;
    } else {
      FlattenPrefix(parts[..|parts| - 1], p);
      assert parts[..|parts| - 1][..p] == parts[..p];
    }
  }

  /** The walk goes on to the next part, or is over. */
  lemma WalkPart<T>(parts: seq<seq<T>>, p: nat)
    requires p < |parts|
    ensures p + 1 < |parts| ==> Before(parts, p + 1, 0) == Before(parts, p, |parts[p]|)
    ensures p + 1 == |parts| ==> Before(parts, p, |parts[p]|) == Flatten(parts)
  {
    if p + 1 < |parts| {
      assert parts[..p + 1][..p] == parts[..p];
    }
  }

  /** The head of every walk: step into the next part at the end of one, or stop. */
  method Seek<T>(parts: seq<seq<T>>, p: nat, i: nat) returns (found: bool, p': nat, i': nat)
    requires IsList(parts) && p < |parts| && i <= |parts[p]|
    ensures p' < |parts| && i' <= |parts[p']| && Before(parts, p', i') == Before(parts, p, i)
    ensures if found then i' < |parts[p']| else Before(parts, p, i) == Flatten(parts)
    ensures p < p' || (p == p' && i == i')
  {
    found, p', i' := true, p, i;
    if i >= |parts[p]| {
      WalkPart(parts, p);
      if p + 1 == |parts| { return false, p, i; }
      p', i' := p + 1, 0;
    }
  }
}
