/** Frame buffers: a size, and a vector whose storage is moved from owner to owner. */
module LargeBuffers {
  import Bits
  import opened Common
  import opened Seqs

  // A storage block has an identity (`Ref`), so that two buffers holding the same block, or a block
  // without an owner, are states the model could reach and the proofs have to exclude.

  type Bytes = seq<Bits.Byte>
  type Ref = nat

  datatype Memory = Memory(heap: map<Ref, Bytes>, next: Ref)

  /** `data` is `None` for a vector that holds no storage: default constructed, or moved from. */
  datatype LargeBuffer = LargeBuffer(size: nat, data: Option<Ref>)

  function ZeroBytes(n: nat): (r: Bytes)
    ensures |r| == n
  {
    seq(n, i => 0)
  }

  function DataSize(m: Memory, b: LargeBuffer): nat {
    if b.data.Some? && b.data.value in m.heap then |m.heap[b.data.value]| else 0
  }

  /** `data()`: the first `size` bytes of the storage. */
  function Content(m: Memory, b: LargeBuffer): Bytes {
    if b.size <= DataSize(m, b) && b.data.Some? && b.data.value in m.heap then m.heap[b.data.value][..b.size]
    else []
  }

  /** All bytes that `data()` would show are there. A moved-from buffer with a stale size is not backed. */
  predicate Backed(m: Memory, b: LargeBuffer) {
    b.size <= DataSize(m, b)
  }

  /** `is_empty()`: no elements and no capacity. */
  predicate IsEmpty(b: LargeBuffer) {
    b.data.None?
  }

  /** What a defaulted move leaves behind: the storage is gone but `size_` keeps its old value. */
  function MovedFrom(b: LargeBuffer): LargeBuffer {
    b.(data := None)
  }

  /** A vector of `n` bytes; no storage is needed for none. */
  function Allocate(m: Memory, bytes: Bytes): (r: (Memory, Option<Ref>)) {
    if bytes == [] then (m, None) else (Memory(m.heap[m.next := bytes], m.next + 1), Some(m.next))
  }

  /** The destruction of the vector that a move assignment overwrites. */
  function Release(m: Memory, b: LargeBuffer): Memory {
    if b.data.Some? then m.(heap := m.heap - {b.data.value}) else m
  }

  /** `LargeBuffer{ n }`. */
  function NewBuffer(m: Memory, n: nat): (Memory, LargeBuffer) {
    var (after, data) := Allocate(m, ZeroBytes(n));
    (after, LargeBuffer(0, data))
  }

  /** `resize(n)`: sets the size; the vector only ever grows, into new storage. */
  function Resize(m: Memory, b: LargeBuffer, n: nat): (Memory, LargeBuffer) {
    var size := DataSize(m, b);
    if n <= size then (m, b.(size := n))
    else
      var kept := if size > 0 then m.heap[b.data.value] else [];
      var (after, data) := Allocate(Release(m, b), kept + ZeroBytes(n - size));
      (after, LargeBuffer(n, data))
  }

  /** A datagram written to the front of the storage. */
  function WriteData(m: Memory, b: LargeBuffer, bytes: Bytes): Memory
    requires |bytes| <= DataSize(m, b)
  {
    if bytes == [] then m
    else m.(heap := m.heap[b.data.value := bytes + m.heap[b.data.value][|bytes|..]])
  }

  predicate Among(r: Ref, first: Ref, n: nat) {
    first <= r < first + n
  }

  function Blocks(first: Ref, n: nat): set<Ref> {
    set r: nat | first <= r < first + n && Among(r, first, n)
  }

  lemma BlocksRange(first: Ref, n: nat)
    ensures forall r :: r in Blocks(first, n) <==> first <= r < first + n
  {
    assert forall r :: Among(r, first, n) ==> r in Blocks(first, n);
    forall r: nat | first <= r < first + n
      ensures r in Blocks(first, n)
    {
      assert Among(r, first, n);
    }
  }

  /** `n` buffers constructed in a row, over consecutive new blocks. */
  function NewBuffers(m: Memory, n: nat, size: nat): (r: (Memory, seq<LargeBuffer>))
    ensures |r.1| == n
    ensures forall k :: 0 <= k < n ==> r.1[k] == LargeBuffer(0, if size == 0 then None else Some(m.next + k))
  {
    if size == 0 then (m, seq(n, k => LargeBuffer(0, None)))
    else
      (Memory(m.heap + map r | r in Blocks(m.next, n) :: ZeroBytes(size), m.next + n),
       seq(n, k requires 0 <= k < n => LargeBuffer(0, Some(m.next + k))))
  }

  lemma BlocksGrow(first: Ref, n: nat)
    ensures Blocks(first, 0) == {}
    ensures Blocks(first, n + 1) == Blocks(first, n) + {first + n}
  {
    BlocksRange(first, 0);
    BlocksRange(first, n);
    BlocksRange(first, n + 1);
  }

  /** It is one construction after the other. */
  lemma NewBuffersOneByOne(m: Memory, n: nat, size: nat)
    ensures NewBuffers(m, 0, size) == (m, [])
    ensures var (before, bs) := NewBuffers(m, n, size);
            var (after, b) := NewBuffer(before, size);
            NewBuffers(m, n + 1, size) == (after, bs + [b])
  {
    BlocksGrow(m.next, n);
    assert NewBuffers(m, 0, size).0.heap == m.heap;
    if size == 0 {
      assert ZeroBytes(size) == [];
      assert NewBuffers(m, n + 1, size).1 == NewBuffers(m, n, size).1 + [LargeBuffer(0, None)];
    } else {
      var before := NewBuffers(m, n, size).0;
      assert |ZeroBytes(size)| > 0;
      assert NewBuffers(m, n + 1, size).0.heap == before.heap[before.next := ZeroBytes(size)];
      assert NewBuffer(before, size) == (Memory(before.heap[before.next := ZeroBytes(size)], before.next + 1),
                                         LargeBuffer(0, Some(before.next)));
      assert NewBuffers(m, n + 1, size).1 == NewBuffers(m, n, size).1 + [LargeBuffer(0, Some(before.next))];
    }
  }

  // ----- which storage a buffer holds

  /** One if the buffer holds block `r`. */
  function Holds(r: Ref, b: LargeBuffer): int {
    if b.data == Some(r) then 1 else 0
  }

  function HoldsStorage(b: LargeBuffer): int {
    if b.data.Some? then 1 else 0
  }

  function Holder(r: Ref): LargeBuffer -> int {
    (b: LargeBuffer) => Holds(r, b)
  }

  /** If every block of a set is held exactly once and no other block is, there are as many blocks as holders. */
  lemma {:induction false} BlocksAreHolders(bs: seq<LargeBuffer>, blocks: set<Ref>)
    requires forall r :: Sum(Holder(r), bs) == if r in blocks then 1 else 0
    ensures |blocks| == Sum(HoldsStorage, bs)
  {
    if bs == [] {
      forall r
        ensures r !in blocks
      {
        assert Sum(Holder(r), bs) == 0;
      }
      assert blocks == {};
    } else {
      var front, last := bs[..|bs| - 1], bs[|bs| - 1];
      if last.data.None? {
        forall r
          ensures Sum(Holder(r), front) == if r in blocks then 1 else 0
        {
          assert Sum(Holder(r), bs) == Sum(Holder(r), front);
        }
        BlocksAreHolders(front, blocks);
      } else {
        var held := last.data.value;
        forall r
          ensures Sum(Holder(r), front) == if r in blocks - {held} then 1 else 0
        {
          assert Sum(Holder(r), bs) == Sum(Holder(r), front) + Holds(r, last);
          HoldersAreNatural(r, front);
        }
        BlocksAreHolders(front, blocks - {held});
        assert held in blocks by {
          HoldersAreNatural(held, front);
          assert Sum(Holder(held), bs) >= 1;
        }
      }
    }
  }

  lemma {:induction false} HoldersAreNatural(r: Ref, bs: seq<LargeBuffer>)
    ensures Sum(Holder(r), bs) >= 0
  {
    if bs == [] {
    } else {
      HoldersAreNatural(r, bs[..|bs| - 1]);
    }
  }

  // ----- the object

  /** A buffer as the program holds it: the array is the vector's storage, `null` if there is none. */
  class FrameBuffer {
    var size: nat
    var storage: array?<Bits.Byte>

    /** The object is the buffer `b` of memory `m`. */
    ghost predicate Represents(m: Memory, b: LargeBuffer)
      reads this, storage
    {
      && size == b.size
      && (storage == null <==> b.data.None?)
      && (storage != null ==> b.data.value in m.heap && m.heap[b.data.value] == storage[..] && storage.Length > 0)
    }

    constructor (n: nat, ghost m: Memory)
      ensures Represents(NewBuffer(m, n).0, NewBuffer(m, n).1)
      ensures storage != null ==> fresh(storage)
    {
      size := 0;
      storage := null;
      new;
      if n > 0 {
        var a := new Bits.Byte[n](i => 0);
        storage := a;
        assert a[..] == ZeroBytes(n);
      } else {
        assert ZeroBytes(n) == [];
      }
    }

    method BufferSize() returns (n: nat)
      ensures n == if storage == null then 0 else storage.Length
      ensures forall m, b :: Represents(m, b) ==> n == DataSize(m, b)
    {
      n := if storage == null then 0 else storage.Length;
    }

    /** Only growing touches the storage; what was there is kept and the rest is zero. */
    method ResizeTo(n: nat, ghost m: Memory, ghost b: LargeBuffer)
      requires Represents(m, b)
      modifies this
      ensures Represents(Resize(m, b, n).0, Resize(m, b, n).1)
      ensures storage == old(storage) || (storage != null && fresh(storage))
      ensures storage != null ==> storage.Length >= n
      ensures size == n
      ensures var length := if old(storage) == null then 0 else old(storage.Length);
              && (n <= length ==> storage == old(storage) && (storage != null ==> storage[..] == old(storage[..])))
              && (n > length ==> storage != null && storage.Length == n
                                 && (forall i :: 0 <= i < length ==> storage[i] == old(storage[i]))
                                 && (forall i :: length <= i < n ==> storage[i] == 0))
    {
      var length := BufferSize();
      if n > length {
        var kept := if storage == null then [] else storage[..];
        var a := new Bits.Byte[n](i requires 0 <= i < n => if i < |kept| then kept[i] else 0);
        assert |kept| == length;
        assert forall i :: 0 <= i < n ==> a[i] == (kept + ZeroBytes(n - length))[i];
        assert a[..] == kept + ZeroBytes(n - length);
        storage := a;
      }
      size := n;
    }

    /** A defaulted move assignment: the storage changes hands, and `size` stays behind in the source. */
    method MoveFrom(source: FrameBuffer, ghost m: Memory, ghost mine: LargeBuffer, ghost b: LargeBuffer)
      requires source != this && Represents(m, mine) && source.Represents(m, b)
      requires mine.data.Some? ==> mine.data != b.data
      modifies this, source
      ensures Represents(Release(m, mine), b) && source.Represents(Release(m, mine), MovedFrom(b))
      ensures size == old(source.size) && storage == old(source.storage)
      ensures source.size == old(source.size) && source.storage == null
    {
      size, storage := source.size, source.storage;
      source.storage := null;
    }

    method Write(bytes: Bytes, ghost m: Memory, ghost b: LargeBuffer)
      requires Represents(m, b) && |bytes| <= DataSize(m, b)
      modifies storage
      ensures storage == old(storage) && Represents(WriteData(m, b, bytes), b)
    {
      if bytes == [] {
        return;
      }
      ghost var rest := storage[|bytes|..];
      for i := 0 to |bytes|
        invariant storage == old(storage) && storage.Length == |bytes| + |rest|
        invariant storage[..i] == bytes[..i] && storage[|bytes|..] == rest
      {
        storage[i] := bytes[i];
      }
      assert storage[..] == storage[..|bytes|] + storage[|bytes|..];
    }

    /** `data()`. */
    method Data() returns (r: Bytes)
      requires size <= if storage == null then 0 else storage.Length
      ensures |r| == size && (storage != null ==> r == storage[..size])
      ensures forall m, b :: Represents(m, b) ==> Backed(m, b) && r == Content(m, b)
    {
      r := if storage == null then [] else storage[..size];
    }
  }
}
