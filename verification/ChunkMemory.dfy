/** my_chunk_malloc and free_chunk_memory: small requests are cut from large blocks. */
module ChunkMemory {
  const CHUNK_SIZE: nat := 32768
  const FRAGMENT_THRESHOLD: nat := 100

  /** Bytes of a long, the word requests are rounded up to. */
  const ALIGN: nat := 8

  /** A place in an underlying block, or no place at all. */
  datatype Pointer = Null | At(block: nat, offset: nat)

  /** Memory handed out: `size` bytes from `offset` on. */
  datatype Span = Span(block: nat, offset: nat, size: nat)

  predicate Apart(x: Span, y: Span) {
    x.block != y.block || x.offset + x.size <= y.offset || y.offset + y.size <= x.offset
  }

  function Rounded(size: nat): (r: nat)
    ensures size <= r < size + ALIGN && r % ALIGN == 0
  {
    if size % ALIGN == 0 then size else size + ALIGN - size % ALIGN
  }

  ghost predicate AllApart(spans: seq<Span>) {
    forall k, l {:trigger spans[k], spans[l]} :: 0 <= k < l < |spans| ==> Apart(spans[k], spans[l])
  }

  ghost predicate Inside(s: Span, blocks: seq<nat>) {
    s.block < |blocks| && s.offset + s.size <= blocks[s.block] && s.offset % ALIGN == 0
  }

  ghost predicate AllInside(spans: seq<Span>, blocks: seq<nat>) {
    forall k {:trigger spans[k]} :: 0 <= k < |spans| ==> Inside(spans[k], blocks)
  }

  /** Nothing was handed out behind `next`, and its block ends where the available bytes do. */
  ghost predicate Open(next: Pointer, avail: nat, spans: seq<Span>, blocks: seq<nat>) {
    && next.At? && next.block < |blocks| && next.offset % ALIGN == 0
    && next.offset + avail == blocks[next.block]
    && forall k {:trigger spans[k]} :: 0 <= k < |spans| && spans[k].block == next.block ==>
      spans[k].offset + spans[k].size <= next.offset
  }

  /** Every block of the list is listed once and still there. */
  ghost predicate Listed(head: seq<nat>, live: set<nat>) {
    && (forall i {:trigger head[i]} :: 0 <= i < |head| ==> head[i] in live)
    && forall i, j {:trigger head[i], head[j]} :: 0 <= i < j < |head| ==> head[i] != head[j]
  }

  lemma {:induction false} OneMoreSpan(spans: seq<Span>, s: Span, blocks: seq<nat>)
    requires AllApart(spans) && AllInside(spans, blocks) && Inside(s, blocks)
    requires forall k {:trigger spans[k]} :: 0 <= k < |spans| ==> Apart(spans[k], s)
    ensures AllApart(spans + [s]) && AllInside(spans + [s], blocks)
  {
  }

  /** One group of allocations: its list of blocks, and the chunk that is open. */
  class Chunks {
    var blocks: seq<nat>        // sizes of all blocks obtained from the system
    var live: set<nat>          // those not yet given back
    var head: seq<nat>          // the linked list, newest first
    var avail: int              // *mem_avail_ptr
    var next: Pointer           // *next_mem_loc_ptr
    ghost var spans: seq<Span>  // what was handed out

    ghost predicate Valid()
      reads this
    {
      && avail >= 0 && avail % ALIGN == 0 && (avail > 0 ==> Open(next, avail, spans, blocks))
      && Listed(head, live) && (forall b :: b in live ==> b < |blocks|)
      && AllInside(spans, blocks) && AllApart(spans)
    }

    constructor ()
      ensures Valid() && blocks == [] && live == {} && head == [] && spans == [] && avail == 0
    {
      blocks, live, head, avail, next, spans := [], {}, [], 0, Null, [];
    }

    /** my_malloc: a new block of the system, put on the list if there is one. */
    method NewBlock(size: nat, listed: bool) returns (b: nat)
      requires Valid() && size > 0
      modifies this`blocks, this`live, this`head
      ensures Valid() && b == |old(blocks)| && blocks == old(blocks) + [size] && live == old(live) + {b}
      ensures head == if listed then [b] + old(head) else old(head)
    {
      b := |blocks|;
      blocks := blocks + [size];
      live := live + {b};
      if listed { head := [b] + head; }
      assert forall k {:trigger spans[k]} :: 0 <= k < |spans| ==> Inside(spans[k], old(blocks));
    }

    /** A request that does not fit the open chunk, or would waste too much of it, gets a block of its own. */
    method OwnBlock(size: nat, listed: bool) returns (p: Pointer)
      requires Valid() && size > 0
      modifies this`blocks, this`live, this`head, this`spans
      ensures Valid() && p == At(|old(blocks)|, 0) && spans == old(spans) + [Span(p.block, 0, size)]
      ensures blocks == old(blocks) + [size] && live == old(live) + {p.block}
      ensures head == if listed then [p.block] + old(head) else old(head)
    {
      ghost var was := blocks;
      var b := NewBlock(size, listed);
      assert forall k {:trigger spans[k]} :: 0 <= k < |spans| ==> Inside(spans[k], was);
      OneMoreSpan(spans, Span(b, 0, size), blocks);
      spans := spans + [Span(b, 0, size)];
      return At(b, 0);
    }

    /** A new chunk is opened; what was left of the old one is given up. */
    method OpenChunk(listed: bool)
      requires Valid()
      modifies this`blocks, this`live, this`head, this`avail, this`next
      ensures Valid() && avail == CHUNK_SIZE && next == At(|old(blocks)|, 0)
      ensures blocks == old(blocks) + [CHUNK_SIZE] && live == old(live) + {next.block}
      ensures head == if listed then [next.block] + old(head) else old(head)
    {
      ghost var was := blocks;
      var b := NewBlock(CHUNK_SIZE, listed);
      assert forall k {:trigger spans[k]} :: 0 <= k < |spans| ==> Inside(spans[k], was);
      next, avail := At(b, 0), CHUNK_SIZE;
    }

    /** The request is cut from the open chunk. */
    method Cut(size: nat) returns (p: Pointer)
      requires Valid() && 0 < size <= avail
      modifies this`avail, this`next, this`spans
      ensures Valid() && p == old(next) && p.At? && spans == old(spans) + [Span(p.block, p.offset, size)]
      ensures next.At? && next.block == p.block
    {
      var aligned := Rounded(size);
      assert aligned <= avail;
      p := next;
      next, avail := At(p.block, p.offset + aligned), avail - aligned;
      OneMoreSpan(spans, Span(p.block, p.offset, size), blocks);
      spans := spans + [Span(p.block, p.offset, size)];
    }

    /** my_chunk_malloc; `listed` says that the caller keeps a list. The assertion at its start always holds. The
        result lies in one block that was not given back, on a word boundary, apart from all handed out before. */
    method ChunkMalloc(size: nat, listed: bool) returns (p: Pointer)
      requires Valid() && (avail > 0 ==> next.At? && next.block in live)
      modifies this
      ensures old(avail) >= 0
      ensures Valid() && (avail > 0 ==> next.At? && next.block in live)
      ensures size > 0 ==> p.At? && p.block in live && spans == old(spans) + [Span(p.block, p.offset, size)]
      ensures size == 0 ==> p == old(next) && spans == old(spans) && blocks == old(blocks)
      ensures blocks == old(blocks) ==> live == old(live) && head == old(head)
      ensures blocks != old(blocks) ==>
        && |blocks| == |old(blocks)| + 1 && blocks[..|old(blocks)|] == old(blocks)
        && live == old(live) + {|old(blocks)|} && head == if listed then [|old(blocks)|] + old(head) else old(head)
    {
      hide Open, Listed, AllInside, AllApart;
      p := next;
      if size > 0 {
        if avail < size {
          if size > CHUNK_SIZE || avail >= FRAGMENT_THRESHOLD {
            p := OwnBlock(size, listed);
            return;
          }
          OpenChunk(listed);
        }
        p := Cut(size);
      }
    }

    /** free_chunk_memory: every block on the list is still there when its turn comes, and is given back once. */
    method FreeChunkMemory()
      requires Valid()
      modifies this`live, this`head
      ensures Valid() && head == [] && live == old(live) - set b | b in old(head)
    {
      ghost var freed := [];
      while head != []
        invariant Listed(head, live) && live <= old(live) && freed + head == old(head)
        invariant live == old(live) - set b | b in freed
        decreases |head|
      {
        var b := head[0];
        head := head[1..];
        freed := freed + [b];
        Free(b);
      }
      assert freed == old(head);
    }

    /** free: only a block that is still there may be given back. */
    method Free(b: nat)
      requires b in live
      modifies this`live
      ensures live == old(live) - {b}
    {
      live := live - {b};
    }
  }
}
