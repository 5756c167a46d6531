/**
nginx buffers and chains. A buffer is a value naming memory or a file range; the memory
and the files are objects the producer may overwrite, so what a buffer carries is read
from the heap at the moment of asking.
 */
module Buffers {

  type byte = char  // an octet; nothing here depends on its value

  const FILE_CHUNK: nat := 64 * 1024
  const INT_MAX: nat := 0x7fff_ffff

  function Max(a: nat, b: nat): nat {
    if a < b then b else a
  }

  /** One read: an error (n < 0), an end of file (n == 0), or some of the bytes asked for. */
  method ReadAt(content: seq<byte>, size: nat, offset: nat) returns (n: int, data: seq<byte>)
    requires offset <= |content|
    ensures n <= size && offset + n <= |content|
    ensures data == if n > 0 then content[offset..offset + n] else []
  {
    n := *;
    if n > size || offset + n > |content| { n := -1; }
    data := if n > 0 then content[offset..offset + n] else [];
  }

  class File {
    var content: seq<byte>
    constructor (content: seq<byte>)
      ensures this.content == content
    {
      this.content := content;
    }
  }

  /** ngx_buf_t: `mem[pos..last]` when in memory, else a range of `file`. */
  datatype Buf = Buf(
    inMemory: bool, mem: array<byte>, pos: nat, last: nat,
    inFile: bool, file: File?, tempFile: bool, filePos: int, fileLast: int,
    lastBuf: bool, lastInChain: bool, flush: bool)

  predicate FileBacked(b: Buf) {
    !b.inMemory && b.inFile && b.file != null
  }

  predicate InvertedRange(b: Buf) {
    FileBacked(b) && b.fileLast < b.filePos
  }

  /** The objects a buffer's bytes live in. */
  ghost function Storage(b: Buf): set<object> {
    if b.inMemory then {b.mem} else if b.file != null then {b.file} else {}
  }

  /** The memory slice, or the file range unless it is inverted, exists. */
  ghost predicate Readable(b: Buf)
    reads Storage(b)
  {
    && (b.inMemory ==> b.pos <= b.last <= b.mem.Length)
    && (FileBacked(b) && !InvertedRange(b) ==> 0 <= b.filePos && b.fileLast <= |b.file.content|)
  }

  /** The bytes a buffer carries right now. */
  ghost function Payload(b: Buf): seq<byte>
    reads Storage(b)
  {
    if b.inMemory then (if b.pos <= b.last <= b.mem.Length then b.mem[b.pos..b.last] else [])
    else if FileBacked(b) && 0 <= b.filePos <= b.fileLast <= |b.file.content|
    then b.file.content[b.filePos..b.fileLast]
    else []
  }

  ghost function Cat(parts: seq<seq<byte>>): seq<byte> {
    if parts == [] then [] else Cat(parts[..|parts| - 1]) + parts[|parts| - 1]
  }

  lemma CatSnoc(parts: seq<seq<byte>>, p: seq<byte>)
    ensures Cat(parts + [p]) == Cat(parts) + p
  {
    assert (parts + [p])[..|parts|] == parts;
  }

  lemma {:induction false} CatConcat(a: seq<seq<byte>>, b: seq<seq<byte>>)
    ensures Cat(a + b) == Cat(a) + Cat(b)
    decreases |b|
  {
    if b == [] {
      assert a + b == a;
    } else {
      var n := |b| - 1;
      CatConcat(a, b[..n]);
      assert (a + b)[..|a + b| - 1] == a + b[..n];
    }
  }

  lemma {:induction false} CatPrefix(ps: seq<seq<byte>>, i: nat)
    requires i <= |ps|
    ensures Cat(ps[..i]) <= Cat(ps)
  {
    CatConcat(ps[..i], ps[i..]);
    assert ps == ps[..i] + ps[i..];
  }

  /** The objects that the bytes of some buffers depend on. */
  ghost function Foot(bufs: seq<Buf>): set<object> {
    set b, o | b in bufs && o in Storage(b) :: o
  }

  lemma FootSnoc(bufs: seq<Buf>, b: Buf)
    ensures Foot(bufs + [b]) == Foot(bufs) + Storage(b)
  {
  }

  /** What each buffer carries. */
  ghost function Payloads(bufs: seq<Buf>): (ps: seq<seq<byte>>)
    reads Foot(bufs)
  {
    seq(|bufs|, i reads Foot(bufs) requires 0 <= i < |bufs| => Payload(bufs[i]))
  }

  class Link {
    const buf: Buf
    var next: Link?
    constructor (buf: Buf)
      ensures this.buf == buf && next == null
    {
      this.buf, next := buf, null;
    }
  }

  ghost function BufsOf(links: seq<Link>): (bufs: seq<Buf>) {
    seq(|links|, i requires 0 <= i < |links| => links[i].buf)
  }

  /** `links` is the acyclic list that starts at `head`. */
  ghost predicate IsChain(head: Link?, links: seq<Link>)
    reads links
  {
    var acyclic :=
      && (if links == [] then head == null else head == links[0] && links[|links| - 1].next == null)
      && (forall i :: 0 <= i < |links| - 1 ==> links[i].next == links[i + 1])
      && (forall i, j :: 0 <= i < j < |links| ==> links[i] != links[j]);
    acyclic
  }

  /** The list of held buffers, kept through a pointer to its end. */
  class Pending {
    var head: Link?
    var tail: Link?               // null stands for the address of `head`
    ghost var links: seq<Link>
    ghost var spine: set<Link>    // the links made so far
    ghost var Repr: set<object>   // the storage of the buffers held

    /** The tail pointer designates the end of an acyclic list. */
    ghost predicate Shape()
      reads this, spine
    {
      var linked :=
        && (forall l :: l in links ==> l in spine)
        && IsChain(head, links) && tail == if links == [] then null else links[|links| - 1];
      linked
    }

    ghost predicate Closed()
      reads this
    {
      var apart := this !in Repr && spine !! Repr && Foot(BufsOf(links)) <= Repr;
      apart
    }

    /** What the held buffers carry now. */
    ghost function Held(): seq<seq<byte>>
      requires Closed()
      reads this, Repr
    {
      Payloads(BufsOf(links))
    }

    constructor ()
      ensures Shape() && Closed() && links == [] && spine == {} && Repr == {} && Held() == []
    {
      head, tail, links, spine, Repr := null, null, [], {}, {};
    }

    method Clear()
      modifies this
      ensures Shape() && Closed() && links == [] && spine == {} && Repr == {} && head == null && Held() == []
    {
      head, tail, links, spine, Repr := null, null, [], {}, {};
    }

    /** Appending through the tail pointer is appending to the sequence. */
    method Attach(cl: Link)
      requires Shape() && cl.next == null && cl !in spine
      modifies this`head, this`tail, this`links, this`spine, spine
      ensures Shape() && links == old(links) + [cl] && spine == old(spine) + {cl}
    {
      if tail == null {
        head := cl;
      } else {
        tail.next := cl;
      }
      tail := cl;
      links, spine := links + [cl], spine + {cl};
    }

    method Append(b: Buf) returns (cl: Link)
      requires Shape() && Closed() && this !in Storage(b) && spine !! Storage(b)
      modifies this, spine
      ensures Shape() && Closed() && links == old(links) + [cl] && cl.buf == b
      ensures fresh(cl) && spine == old(spine) + {cl} && Repr == old(Repr) + Storage(b)
      ensures Held() == old(Held()) + [old(Payload(b))]
    {
      ghost var before, held, bytes := BufsOf(links), Held(), Payload(b);
      cl := new Link(b);
      Attach(cl);
      Repr := Repr + Storage(b);
      assert Payloads(before) == held && Payload(b) == bytes;
      FootSnoc(before, b);
      assert BufsOf(links) == before + [b];
    }
  }
}
