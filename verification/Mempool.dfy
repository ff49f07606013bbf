// src/mempool.c: fixed-size blocks carved from one memory area, with one free list for
// each block size.  The header word of a block is the link of its free list while the
// block is free, and the address of its slot while it is allocated.

module MempoolSpec {
  import opened Seqs

  // A 32-bit target, with the debug information compiled in.
  const UINT: nat := 0x1_0000_0000
  const WORD: nat := 4
  const HEADER: nat := 4    // sizeof(bh_t)
  const SLOT: nat := 16     // sizeof(slot_t)
  const CONTROL: nat := 28  // sizeof(gyros_mempool_t)

  datatype Slot = Slot(blockSize: nat, usedBlocks: nat, freeList: nat)

  // words is the memory of the pool behind the control area, word by word; address 0 is NULL.
  datatype Pool = Pool(start: nat, total: nat, unused: nat, nextBh: nat, slots: seq<Slot>, words: map<nat, nat>)

  // Rounding up to the word size, in unsigned arithmetic.
  function Round(n: nat): nat {
    (n + WORD - 1) % UINT / WORD * WORD
  }

  // The bytes that a block takes, in unsigned arithmetic.
  function Usage(blockSize: nat): nat {
    (HEADER + blockSize) % UINT
  }

  function ControlSize(n: nat): nat {
    (CONTROL + n * SLOT) % UINT
  }

  function SlotAddress(start: nat, i: nat): nat {
    start + CONTROL + i * SLOT
  }

  function SlotAt(start: nat, address: nat): int {
    (address - start - CONTROL) / SLOT
  }

  function Load(words: map<nat, nat>, a: nat): nat {
    if a in words then words[a] else 0
  }

  // gyros_mempool_init
  function Init(sizes: seq<nat>, start: nat, memorySize: nat, words: map<nat, nat>): Option<Pool> {
    var control := ControlSize(|sizes|);
    if control > memorySize then None
    else Some(Pool(start, memorySize - control, memorySize - control, start + control,
                   seq(|sizes|, i requires 0 <= i < |sizes| => Slot(Round(sizes[i]), 0, 0)), words))
  }

  // The loop of gyros_try_alloc: the first slot, from i on, whose blocks are large enough.
  function FirstFit(slots: seq<Slot>, size: nat, i: nat): (k: nat)
    requires i <= |slots|
    ensures i <= k <= |slots|
    ensures forall j :: i <= j < k ==> slots[j].blockSize < size
    ensures k < |slots| ==> size <= slots[k].blockSize
    decreases |slots| - i
  {
    if i == |slots| || size <= slots[i].blockSize then i else FirstFit(slots, size, i + 1)
  }

  // The header of the block that slot i hands out, or 0.
  function Header(p: Pool, i: nat): nat
    requires i < |p.slots|
  {
    if p.slots[i].freeList != 0 then p.slots[i].freeList
    else if Usage(p.slots[i].blockSize) <= p.unused then p.nextBh
    else 0
  }

  // Taking a block from slot i.
  function Take(p: Pool, i: nat): Pool
    requires i < |p.slots|
  {
    var slot := p.slots[i];
    var usage := Usage(slot.blockSize);
    if slot.freeList != 0 then
      p.(slots := p.slots[i := slot.(freeList := Load(p.words, slot.freeList))],
         words := p.words[slot.freeList := SlotAddress(p.start, i)])
    else if usage <= p.unused then
      p.(nextBh := p.nextBh + usage, unused := p.unused - usage,
         slots := p.slots[i := slot.(usedBlocks := slot.usedBlocks + 1)],
         words := p.words[p.nextBh := SlotAddress(p.start, i)])
    else p
  }

  // gyros_try_alloc
  function Alloc(p: Pool, size: nat): Pool {
    var i := FirstFit(p.slots, size, 0);
    if i == |p.slots| then p else Take(p, i)
  }

  // Its result.
  function Zone(p: Pool, size: nat): nat {
    var i := FirstFit(p.slots, size, 0);
    if i == |p.slots| || Header(p, i) == 0 then 0 else Header(p, i) + HEADER
  }

  // gyros_free
  function Free(p: Pool, address: nat): Pool {
    if address < HEADER then p
    else
      var bh := address - HEADER;
      var i := SlotAt(p.start, Load(p.words, bh));
      if !(0 <= i < |p.slots|) then p
      else p.(slots := p.slots[i := p.slots[i].(freeList := bh)], words := p.words[bh := p.slots[i].freeList])
  }
}

module MempoolProtocol {
  import opened Seqs
  import opened MempoolSpec

  // The blocks that users hold, with the slot that the size they asked for belongs to; the
  // blocks carved so far, with the slot they were carved for; and the free lists.  Blocks
  // are named by the address of their header.
  datatype History = History(live: map<nat, nat>, carved: map<nat, nat>, free: seq<seq<nat>>)

  datatype State = State(p: Pool, h: History)

  datatype Op =
    | AllocOp(size: nat)
    | FreeOp(address: nat)
    | StoreOp(address: nat, value: nat)   // a user writes to a block it holds

  ghost function LiveIn(live: map<nat, nat>, i: nat): set<nat> {
    set a | a in live && live[a] == i
  }

  // Word a belongs to the payload of block b of this size.
  predicate Payload(b: nat, blockSize: nat, a: nat) {
    b + HEADER <= a && a + WORD <= b + HEADER + blockSize && a % WORD == 0
  }

  ghost predicate Enabled(s: State, op: Op) {
    match op
    case AllocOp(size) => size < UINT
    case FreeOp(address) => address == 0 || (address >= HEADER && address - HEADER in s.h.live)
    case StoreOp(address, value) =>
      exists b :: b in s.h.live && s.h.live[b] < |s.p.slots| && Payload(b, s.p.slots[s.h.live[b]].blockSize, address)
  }

  // The record of a block handed out of slot i.
  ghost function Taken(p: Pool, h: History, i: nat): History
    requires i < |p.slots| && i < |h.free|
  {
    var b := Header(p, i);
    if b == 0 then h
    else
      History(h.live[b := i],
              if p.slots[i].freeList != 0 then h.carved else h.carved[b := i],
              if p.slots[i].freeList != 0 && h.free[i] != [] then h.free[i := h.free[i][1..]] else h.free)
  }

  ghost function Freed(h: History, b: nat): History
    requires b in h.live && h.live[b] < |h.free|
  {
    h.(live := h.live - {b}, free := h.free[h.live[b] := [b] + h.free[h.live[b]]])
  }

  ghost function Step(s: State, op: Op): State
    requires |s.h.free| == |s.p.slots|
  {
    match op
    case AllocOp(size) =>
      var i := FirstFit(s.p.slots, size, 0);
      State(Alloc(s.p, size), if i == |s.p.slots| then s.h else Taken(s.p, s.h, i))
    case FreeOp(address) =>
      State(Free(s.p, address),
            if address >= HEADER && address - HEADER in s.h.live && s.h.live[address - HEADER] < |s.h.free|
            then Freed(s.h, address - HEADER) else s.h)
    case StoreOp(address, value) => s.(p := s.p.(words := s.p.words[address := value]))
  }

  // ----- the invariant

  ghost function HeapStart(p: Pool): nat {
    p.start + CONTROL + |p.slots| * SLOT
  }

  // s is the list of free blocks that starts at head; it ends, so it has no cycle.
  ghost predicate Chain(words: map<nat, nat>, head: nat, s: seq<nat>)
    decreases |s|
  {
    if s == [] then head == 0
    else head == s[0] && head != 0 && head in words && Chain(words, words[head], s[1..])
  }

  ghost predicate Sizes(p: Pool) {
    && p.start > 0 && p.start % WORD == 0
    && (forall i :: 0 <= i < |p.slots| ==> p.slots[i].blockSize % WORD == 0 && HEADER + p.slots[i].blockSize < UINT)
    && p.unused <= p.total
    && p.nextBh == HeapStart(p) + (p.total - p.unused) && p.nextBh % WORD == 0
    && (forall a {:trigger a in p.words} ::
      HeapStart(p) <= a && a + WORD <= HeapStart(p) + p.total && a % WORD == 0 ==> a in p.words)
  }

  // A carved block is aligned, inside the part of the area that has been used, and either
  // held, with its slot in the header, or on the free list of its slot.
  ghost predicate BlockOk(p: Pool, h: History, b: nat)
    requires |h.free| == |p.slots|
  {
    && b in h.carved && h.carved[b] < |p.slots|
    && b % WORD == 0 && HeapStart(p) <= b && b + HEADER + p.slots[h.carved[b]].blockSize <= p.nextBh
    && b in p.words
    && if b in h.live then h.live[b] == h.carved[b] && p.words[b] == SlotAddress(p.start, h.carved[b])
       else b in h.free[h.carved[b]]
  }

  ghost predicate FreeOk(p: Pool, h: History, i: nat)
    requires i < |h.free| == |p.slots|
  {
    && Chain(p.words, p.slots[i].freeList, h.free[i])
    && Distinct(h.free[i])
    && (forall b :: b in h.free[i] ==> b in h.carved && h.carved[b] == i && b !in h.live)
  }

  // No two carved blocks overlap.
  ghost predicate Apart(p: Pool, h: History) {
    forall a, b {:trigger h.carved[a], h.carved[b]} ::
      a in h.carved && b in h.carved && a < b && h.carved[a] < |p.slots| ==>
      a + HEADER + p.slots[h.carved[a]].blockSize <= b
  }

  ghost predicate CountOk(p: Pool, h: History, i: nat)
    requires i < |h.free| == |p.slots|
  {
    p.slots[i].usedBlocks == |LiveIn(h.live, i)| + |h.free[i]|
  }

  // The bytes taken by all blocks carved so far.
  ghost function InUse(slots: seq<Slot>): nat {
    if slots == [] then 0
    else InUse(slots[..|slots| - 1]) + slots[|slots| - 1].usedBlocks * (HEADER + slots[|slots| - 1].blockSize)
  }

  ghost predicate Inv(s: State) {
    && |s.h.free| == |s.p.slots|
    && Sizes(s.p)
    && (forall b :: b in s.h.carved ==> BlockOk(s.p, s.h, b))
    && (forall b :: b in s.h.live ==> b in s.h.carved)
    && (forall i :: 0 <= i < |s.p.slots| ==> FreeOk(s.p, s.h, i) && CountOk(s.p, s.h, i))
    && Apart(s.p, s.h)
    && s.p.total == s.p.unused + InUse(s.p.slots)
  }

  // ----- free lists

  // Writing elsewhere does not change a free list.
  lemma {:induction false} ChainFrame(words: map<nat, nat>, head: nat, s: seq<nat>, a: nat, v: nat)
    requires Chain(words, head, s) && a !in s
    ensures Chain(words[a := v], head, s)
    decreases |s|
  {
    if s != [] {
      ChainFrame(words, words[head], s[1..], a, v);
    }
  }

  lemma Unfree(s: seq<nat>)
    requires Distinct(s) && s != []
    ensures Distinct(s[1..]) && s[0] !in s[1..]
    ensures forall x :: x in s[1..] <==> x in s && x != s[0]
  {
    forall x | x in s && x != s[0] ensures x in s[1..] {
      var j :| 0 <= j < |s| && s[j] == x;
      assert s[1..][j - 1] == x;
    }
  }

  lemma LiveAdd(live: map<nat, nat>, b: nat, i: nat, j: nat)
    requires b !in live
    ensures |LiveIn(live[b := i], j)| == |LiveIn(live, j)| + if i == j then 1 else 0
  {
    assert LiveIn(live[b := i], j) == LiveIn(live, j) + if i == j then {b} else {};
  }

  lemma LiveDrop(live: map<nat, nat>, b: nat, j: nat)
    requires b in live
    ensures |LiveIn(live - {b}, j)| == |LiveIn(live, j)| - if live[b] == j then 1 else 0
  {
    assert LiveIn(live - {b}, j) == LiveIn(live, j) - if live[b] == j then {b} else {};
  }

  lemma {:induction false} InUseSame(a: seq<Slot>, b: seq<Slot>)
    requires |a| == |b|
    requires forall i :: 0 <= i < |a| ==> a[i].usedBlocks == b[i].usedBlocks && a[i].blockSize == b[i].blockSize
    ensures InUse(a) == InUse(b)
  {
    if a != [] {
      InUseSame(a[..|a| - 1], b[..|b| - 1]);
    }
  }

  lemma {:induction false} InUseMore(a: seq<Slot>, i: nat)
    requires i < |a|
    ensures InUse(a[i := a[i].(usedBlocks := a[i].usedBlocks + 1)]) == InUse(a) + HEADER + a[i].blockSize
  {
    var b := a[i := a[i].(usedBlocks := a[i].usedBlocks + 1)];
    var n := |a| - 1;
    if i == n {
      assert b[..n] == a[..n];
    } else {
      InUseMore(a[..n], i);
      assert b[..n] == a[..n][i := a[..n][i].(usedBlocks := a[..n][i].usedBlocks + 1)];
    }
  }

  // ----- every step keeps the invariant

  // Handing out the first block of a free list.
  lemma ReuseKeeps(s: State, i: nat)
    requires Inv(s) && i < |s.p.slots| && s.p.slots[i].freeList != 0
    ensures Inv(State(Take(s.p, i), Taken(s.p, s.h, i)))
    ensures Header(s.p, i) !in s.h.live
  {
    hide Apart, LiveIn, InUse;
    var p, h := s.p, s.h;
    assert FreeOk(p, h, i);
    var b := h.free[i][0];
    assert b in h.free[i] && b == Header(p, i);
    assert BlockOk(p, h, b);
    var r := State(Take(p, i), Taken(p, h, i));
    Unfree(h.free[i]);
    InUseSame(p.slots, r.p.slots);
    forall j | 0 <= j < |p.slots| ensures FreeOk(r.p, r.h, j) && CountOk(r.p, r.h, j) {
      assert FreeOk(p, h, j) && CountOk(p, h, j);
      LiveAdd(h.live, b, i, j);
      if j == i {
        ChainFrame(p.words, p.words[b], h.free[i][1..], b, SlotAddress(p.start, i));
      } else {
        ChainFrame(p.words, p.slots[j].freeList, h.free[j], b, SlotAddress(p.start, i));
      }
    }
    forall x | x in r.h.carved ensures BlockOk(r.p, r.h, x) {
      assert BlockOk(p, h, x);
    }
    ApartSame(p, r.p, h, r.h);
  }

  lemma ApartSame(p: Pool, q: Pool, h: History, k: History)
    requires Apart(p, h) && k.carved == h.carved && |q.slots| == |p.slots|
    requires forall i :: 0 <= i < |p.slots| ==> q.slots[i].blockSize == p.slots[i].blockSize
    ensures Apart(q, k)
  {
  }

  // Carving a new block.
  ghost predicate Carves(s: State, i: nat) {
    Inv(s) && i < |s.p.slots| && s.p.slots[i].freeList == 0 && Usage(s.p.slots[i].blockSize) <= s.p.unused
  }

  ghost function Carved(s: State, i: nat): State
    requires Carves(s, i)
  {
    State(Take(s.p, i), Taken(s.p, s.h, i))
  }

  lemma CarveNew(s: State, i: nat)
    requires Carves(s, i)
    ensures s.p.nextBh !in s.h.carved && s.p.nextBh !in s.h.live && s.p.nextBh != 0 && s.h.free[i] == []
    ensures s.p.slots[i].blockSize + HEADER == Usage(s.p.slots[i].blockSize)
  {
    hide Apart, CountOk;
    assert s.p.nextBh in s.h.carved ==> BlockOk(s.p, s.h, s.p.nextBh);
    assert FreeOk(s.p, s.h, i);
  }

  lemma CarveSlot(s: State, i: nat, j: nat)
    requires Carves(s, i) && j < |s.p.slots|
    ensures FreeOk(Carved(s, i).p, Carved(s, i).h, j) && CountOk(Carved(s, i).p, Carved(s, i).h, j)
  {
    hide LiveIn, InUse, Apart, BlockOk, Sizes, SlotAddress, Usage;
    CarveNew(s, i);
    assert FreeOk(s.p, s.h, j) && CountOk(s.p, s.h, j);
    LiveAdd(s.h.live, s.p.nextBh, i, j);
    ChainFrame(s.p.words, s.p.slots[j].freeList, s.h.free[j], s.p.nextBh, SlotAddress(s.p.start, i));
  }

  lemma CarveBlock(s: State, i: nat, x: nat)
    requires Carves(s, i) && x in Carved(s, i).h.carved
    ensures BlockOk(Carved(s, i).p, Carved(s, i).h, x)
  {
    hide LiveIn, InUse, Apart, FreeOk, CountOk, SlotAddress;
    CarveNew(s, i);
    if x != s.p.nextBh {
      assert BlockOk(s.p, s.h, x);
    }
  }

  lemma CarveApart(s: State, i: nat)
    requires Carves(s, i)
    ensures Apart(Carved(s, i).p, Carved(s, i).h)
  {
    hide LiveIn, InUse, FreeOk, CountOk, SlotAddress, Usage;
    CarveNew(s, i);
    var b, r, h := s.p.nextBh, Carved(s, i), s.h;
    forall x, y {:trigger r.h.carved[x], r.h.carved[y]} | x in r.h.carved && y in r.h.carved && x < y
      && r.h.carved[x] < |r.p.slots|
      ensures x + HEADER + r.p.slots[r.h.carved[x]].blockSize <= y
    {
      assert x in h.carved ==> BlockOk(s.p, h, x);
      assert y in h.carved ==> BlockOk(s.p, h, y);
    }
  }

  lemma CarveSizes(s: State, i: nat)
    requires Carves(s, i)
    ensures Sizes(Carved(s, i).p)
  {
    hide LiveIn, InUse, FreeOk, CountOk, Apart, BlockOk, SlotAddress, Usage, Take, Taken;
    CarvedIs(s, i);
    var p, r := s.p, Carved(s, i).p;
    forall j | 0 <= j < |r.slots| ensures r.slots[j].blockSize == p.slots[j].blockSize {
    }
    Multiple(p.nextBh, Usage(p.slots[i].blockSize));
  }

  lemma CarvedIs(s: State, i: nat)
    requires Carves(s, i)
    ensures var p, r, usage := s.p, Carved(s, i).p, Usage(s.p.slots[i].blockSize);
      && r.start == p.start && r.total == p.total && r.nextBh == p.nextBh + usage && r.unused == p.unused - usage
      && |r.slots| == |p.slots| && (forall j :: 0 <= j < |p.slots| ==> r.slots[j].blockSize == p.slots[j].blockSize)
      && (forall a :: a in p.words ==> a in r.words) && usage % WORD == 0
  {
    hide LiveIn, InUse, FreeOk, CountOk, Apart, BlockOk, SlotAddress;
  }

  lemma Multiple(a: nat, b: nat)
    requires a % WORD == 0 && b % WORD == 0
    ensures (a + b) % WORD == 0
  {
  }

  lemma CarveTotal(s: State, i: nat)
    requires Carves(s, i)
    ensures Carved(s, i).p.total == Carved(s, i).p.unused + InUse(Carved(s, i).p.slots)
  {
    hide LiveIn, InUse, FreeOk, CountOk, Apart, BlockOk, SlotAddress;
    InUseMore(s.p.slots, i);
  }

  lemma CarveKeeps(s: State, i: nat)
    requires Carves(s, i)
    ensures Inv(Carved(s, i)) && s.p.nextBh !in s.h.live
  {
    hide LiveIn, InUse, FreeOk, CountOk, Apart, BlockOk, Sizes, SlotAddress, Usage;
    CarveNew(s, i);
    CarveSizes(s, i);
    CarveTotal(s, i);
    CarveApart(s, i);
    var r := Carved(s, i);
    forall j | 0 <= j < |r.p.slots| ensures FreeOk(r.p, r.h, j) && CountOk(r.p, r.h, j) {
      CarveSlot(s, i, j);
    }
    forall x | x in r.h.carved ensures BlockOk(r.p, r.h, x) {
      CarveBlock(s, i, x);
    }
  }

  lemma AllocKeeps(s: State, size: nat)
    requires Inv(s)
    ensures Inv(Step(s, AllocOp(size)))
  {
    hide Inv;
    assert |s.h.free| == |s.p.slots| by { InvShape(s); }
    var i := FirstFit(s.p.slots, size, 0);
    if i < |s.p.slots| {
      if s.p.slots[i].freeList != 0 {
        ReuseKeeps(s, i);
      } else if Usage(s.p.slots[i].blockSize) <= s.p.unused {
        CarveKeeps(s, i);
      }
    }
  }

  lemma InvShape(s: State)
    requires Inv(s)
    ensures |s.h.free| == |s.p.slots|
  {
  }

  lemma SlotDecoded(start: nat, i: nat)
    ensures SlotAt(start, SlotAddress(start, i)) == i
  {
  }

  // Giving block b back.
  ghost function Released(s: State, b: nat): State
    requires Inv(s) && b in s.h.live
  {
    assert BlockOk(s.p, s.h, b);
    Step(s, FreeOp(b + HEADER))
  }

  lemma ReleaseIs(s: State, b: nat)
    requires Inv(s) && b in s.h.live
    ensures b in s.h.carved && s.h.carved[b] == s.h.live[b] && b in s.p.words && b != 0 && s.h.live[b] < |s.p.slots|
      && b !in s.h.free[s.h.live[b]]
    ensures var i := s.h.live[b];
      && Released(s, b).p == s.p.(slots := s.p.slots[i := s.p.slots[i].(freeList := b)],
                                  words := s.p.words[b := s.p.slots[i].freeList])
      && Released(s, b).h == s.h.(live := s.h.live - {b}, free := s.h.free[i := [b] + s.h.free[i]])
  {
    hide Apart, LiveIn, InUse, CountOk;
    assert BlockOk(s.p, s.h, b);
    SlotDecoded(s.p.start, s.h.live[b]);
    hide SlotAt, SlotAddress;
    assert FreeOk(s.p, s.h, s.h.live[b]);
  }

  lemma ReleaseSlot(s: State, b: nat, j: nat)
    requires Inv(s) && b in s.h.live && j < |s.p.slots|
    ensures FreeOk(Released(s, b).p, Released(s, b).h, j) && CountOk(Released(s, b).p, Released(s, b).h, j)
  {
    hide Apart, LiveIn, InUse, BlockOk, Step, Sizes;
    ReleaseIs(s, b);
    hide Released;
    var i, r := s.h.live[b], Released(s, b);
    assert FreeOk(s.p, s.h, j) && CountOk(s.p, s.h, j);
    LiveDrop(s.h.live, b, j);
    ChainFrame(s.p.words, s.p.slots[j].freeList, s.h.free[j], b, s.p.slots[i].freeList);
    if j == i {
      assert r.h.free[i][1..] == s.h.free[i];
    }
  }

  lemma ReleaseBlock(s: State, b: nat, x: nat)
    requires Inv(s) && b in s.h.live && x in s.h.carved
    ensures BlockOk(Released(s, b).p, Released(s, b).h, x)
  {
    hide Apart, LiveIn, InUse, CountOk, FreeOk, Step, Sizes, SlotAddress;
    ReleaseIs(s, b);
    hide Released;
    var i, r := s.h.live[b], Released(s, b);
    assert BlockOk(s.p, s.h, x) && BlockOk(s.p, s.h, b);
    if x == b {
      assert r.h.free[i][0] == b;
    } else if x !in s.h.live && s.h.carved[x] == i {
      var k :| 0 <= k < |s.h.free[i]| && s.h.free[i][k] == x;
      assert r.h.free[i][k + 1] == x;
    }
  }

  lemma FreeKeeps(s: State, address: nat)
    requires Inv(s) && Enabled(s, FreeOp(address))
    ensures Inv(Step(s, FreeOp(address)))
  {
    hide LiveIn, InUse, Apart, BlockOk, FreeOk, CountOk, SlotAddress;
    if address != 0 {
      var b := address - HEADER;
      ReleaseIs(s, b);
      var r := Released(s, b);
      InUseSame(s.p.slots, r.p.slots);
      forall j | 0 <= j < |r.p.slots| ensures FreeOk(r.p, r.h, j) && CountOk(r.p, r.h, j) {
        ReleaseSlot(s, b, j);
      }
      forall x | x in r.h.carved ensures BlockOk(r.p, r.h, x) {
        ReleaseBlock(s, b, x);
      }
      ApartSame(s.p, r.p, s.h, r.h);
    } else {
      assert Step(s, FreeOp(address)) == s;
    }
  }

  // Headers are not inside the payload of a held block, so users do not reach them.
  lemma HeadersApart(p: Pool, h: History, b: nat, x: nat, a: nat)
    requires Apart(p, h) && b in h.carved && x in h.carved && h.carved[b] < |p.slots| && h.carved[x] < |p.slots|
    requires Payload(b, p.slots[h.carved[b]].blockSize, a)
    ensures a != x
  {
    assert b < x ==> b + HEADER + p.slots[h.carved[b]].blockSize <= x;
  }

  lemma StoreElsewhere(s: State, address: nat, value: nat, x: nat)
    requires Inv(s) && Enabled(s, StoreOp(address, value)) && x in s.h.carved
    ensures address != x
  {
    hide Apart, LiveIn, InUse, Payload, CountOk, FreeOk, SlotAddress, Sizes;
    var b :| b in s.h.live && s.h.live[b] < |s.p.slots| && Payload(b, s.p.slots[s.h.live[b]].blockSize, address);
    assert BlockOk(s.p, s.h, b) && BlockOk(s.p, s.h, x);
    HeadersApart(s.p, s.h, b, x, address);
  }

  lemma StoreKeeps(s: State, address: nat, value: nat)
    requires Inv(s) && Enabled(s, StoreOp(address, value))
    ensures Inv(Step(s, StoreOp(address, value)))
  {
    hide Apart, LiveIn, InUse, Payload, CountOk, Enabled, Chain, SlotAddress;
    var p, h := s.p, s.h;
    var r := Step(s, StoreOp(address, value));
    forall x | x in h.carved ensures address != x && BlockOk(r.p, r.h, x) {
      assert BlockOk(p, h, x);
      StoreElsewhere(s, address, value, x);
    }
    forall j | 0 <= j < |p.slots| ensures FreeOk(r.p, r.h, j) && CountOk(r.p, r.h, j) {
      assert FreeOk(p, h, j) && CountOk(p, h, j);
      ChainFrame(p.words, p.slots[j].freeList, h.free[j], address, value);
      CountSame(p, r.p, h, j);
    }
    ApartSame(p, r.p, h, r.h);
  }

  lemma CountSame(p: Pool, q: Pool, h: History, j: nat)
    requires |h.free| == |p.slots| && q.slots == p.slots && j < |p.slots| && CountOk(p, h, j)
    ensures CountOk(q, h, j)
  {
  }

  lemma StepKeeps(s: State, op: Op)
    requires Inv(s) && Enabled(s, op)
    ensures Inv(Step(s, op))
  {
    hide Inv, Enabled;
    InvShape(s);
    match op
    case AllocOp(size) => AllocKeeps(s, size);
    case FreeOp(address) => FreeKeeps(s, address);
    case StoreOp(address, value) => StoreKeeps(s, address, value);
  }

  // ----- all runs

  ghost predicate Shaped(s: State) {
    |s.h.free| == |s.p.slots|
  }

  // The classes of the pool stay what they are.
  ghost predicate SameClasses(p: Pool, q: Pool) {
    && |q.slots| == |p.slots| && q.start == p.start && q.total == p.total
    && forall i :: 0 <= i < |p.slots| ==> q.slots[i].blockSize == p.slots[i].blockSize
  }

  ghost function Run(s: State, ops: seq<Op>): (r: State)
    requires Shaped(s)
    ensures Shaped(r) && SameClasses(s.p, r.p)
    decreases |ops|
  {
    hide Enabled;
    if ops == [] then s
    else if Enabled(s, ops[0]) then Run(Step(s, ops[0]), ops[1..])
    else Run(s, ops[1..])
  }

  lemma {:induction false} RunKeeps(s: State, ops: seq<Op>)
    requires Inv(s)
    ensures Shaped(s) && Inv(Run(s, ops))
    decreases |ops|
  {
    hide Inv, Enabled, Step;
    InvShape(s);
    if ops != [] {
      if Enabled(s, ops[0]) {
        StepKeeps(s, ops[0]);
        RunKeeps(Step(s, ops[0]), ops[1..]);
      } else {
        RunKeeps(s, ops[1..]);
      }
    }
  }

  // ----- a new pool

  // A memory area, and block sizes that are unsigned numbers.
  ghost predicate Area(sizes: seq<nat>, start: nat, memorySize: nat, words: map<nat, nat>) {
    && (forall i :: 0 <= i < |sizes| ==> sizes[i] < UINT)
    && 0 < start && start % WORD == 0 && start + memorySize < UINT
    && (forall a {:trigger a in words} :: start <= a && a + WORD <= start + memorySize && a % WORD == 0 ==> a in words)
    && CONTROL + |sizes| * SLOT < UINT
  }

  // Block sizes for which the size of a block with its header does not fit an unsigned number.
  predicate TooLarge(n: nat) {
    UINT - 7 <= n <= UINT - 4
  }

  function Fresh(p: Pool): State {
    State(p, History(map[], map[], seq(|p.slots|, i => [])))
  }

  lemma RoundIs(n: nat)
    requires n < UINT
    ensures Round(n) % WORD == 0 && Round(n) <= UINT - WORD
    ensures Round(n) == UINT - WORD <==> TooLarge(n)
    ensures n <= UINT - WORD <==> Round(n) >= n
    ensures n <= UINT - WORD ==> Round(n) < n + WORD
  {
  }

  lemma InUseNone(slots: seq<Slot>)
    requires forall i :: 0 <= i < |slots| ==> slots[i].usedBlocks == 0
    ensures InUse(slots) == 0
  {
  }

  lemma InitInv(sizes: seq<nat>, start: nat, memorySize: nat, words: map<nat, nat>)
    requires Area(sizes, start, memorySize, words) && Init(sizes, start, memorySize, words).Some?
    requires forall i :: 0 <= i < |sizes| ==> !TooLarge(sizes[i])
    ensures Inv(Fresh(Init(sizes, start, memorySize, words).value))
  {
    hide Round, TooLarge;
    var s := Fresh(Init(sizes, start, memorySize, words).value);
    InUseNone(s.p.slots);
    forall i | 0 <= i < |sizes| ensures s.p.slots[i].blockSize % WORD == 0 && HEADER + s.p.slots[i].blockSize < UINT {
      RoundIs(sizes[i]);
    }
    forall i | 0 <= i < |s.p.slots| ensures FreeOk(s.p, s.h, i) && CountOk(s.p, s.h, i) {
      assert LiveIn(s.h.live, i) == {};
    }
  }

  // Blocks of this size serve requests of up to n bytes.  For the last sizes that an unsigned
  // number can have, rounding up wraps to 0.
  ghost predicate Serves(blockSize: nat, n: nat) {
    && blockSize % 4 == 0
    && (if n <= UINT - 4 then n <= blockSize < n + 4 else blockSize == 0)
  }

  // A pool is made exactly if the control data fits the area.  Its classes are the sizes asked
  // for, in order, rounded up to the word; the rest of the area is unused.
  lemma NewPool(sizes: seq<nat>, start: nat, memorySize: nat, words: map<nat, nat>)
    requires Area(sizes, start, memorySize, words)
    ensures Init(sizes, start, memorySize, words).None? <==> memorySize < 28 + |sizes| * 16
    ensures var pool := Init(sizes, start, memorySize, words);
      pool.Some? ==>
        var p := pool.value;
        && p.start == start && p.words == words && p.nextBh == start + 28 + |sizes| * 16
        && p.total == p.unused == memorySize - (28 + |sizes| * 16) && |p.slots| == |sizes|
        && (forall i :: 0 <= i < |sizes| ==> Serves(p.slots[i].blockSize, sizes[i]))
        && (forall i :: 0 <= i < |sizes| ==> p.slots[i].usedBlocks == 0 && p.slots[i].freeList == 0)
  {
    hide Round;
    ControlFits(sizes, start, memorySize, words);
    forall i | 0 <= i < |sizes| ensures Serves(Round(sizes[i]), sizes[i]) {
      RoundIs(sizes[i]);
      if sizes[i] > UINT - 4 {
        RoundWraps(sizes[i]);
      }
    }
  }

  lemma RoundWraps(n: nat)
    requires UINT - 4 < n < UINT
    ensures Round(n) == 0
  {
  }

  // After any run, an allocation is served from the first of the sizes asked for that is large
  // enough: of smaller index are only sizes that are too small, and the block is at most a
  // word larger than the size.
  lemma ServedFrom(sizes: seq<nat>, start: nat, memorySize: nat, words: map<nat, nat>, ops: seq<Op>, size: nat, j: nat)
    requires Area(sizes, start, memorySize, words) && Init(sizes, start, memorySize, words).Some?
    requires j < |sizes| && size <= sizes[j] <= UINT - 4
    ensures var r := Run(Fresh(Init(sizes, start, memorySize, words).value), ops).p;
      var i := FirstFit(r.slots, size, 0);
      && |r.slots| == |sizes| && i <= j && Serves(r.slots[i].blockSize, sizes[i]) && size <= r.slots[i].blockSize
      && forall k :: 0 <= k < i && sizes[k] <= UINT - 4 ==> sizes[k] < size
  {
    hide Round, Init, Area, Serves;
    NewPool(sizes, start, memorySize, words);
    var s := Fresh(Init(sizes, start, memorySize, words).value);
    var r := Run(s, ops).p;
    forall k | 0 <= k < |sizes| ensures Serves(r.slots[k].blockSize, sizes[k]) {
      assert r.slots[k].blockSize == s.p.slots[k].blockSize;
    }
    forall k | 0 <= k < |sizes| && sizes[k] <= UINT - 4 ensures sizes[k] <= r.slots[k].blockSize {
      ServesIs(r.slots[k].blockSize, sizes[k]);
    }
  }

  lemma ServesIs(blockSize: nat, n: nat)
    requires Serves(blockSize, n) && n <= UINT - 4
    ensures n <= blockSize
  {
  }

  // ----- what users can rely on

  // Where the block of an allocation comes from: it is the first free block of its class, if
  // there is one, and otherwise the next bytes of the area, of which the class takes its size
  // and a header.  Its header is the address of its slot, and nothing else changes.
  lemma AllocTakes(s: State, size: nat)
    requires Inv(s) && Enabled(s, AllocOp(size))
    ensures |s.h.free| == |s.p.slots|
    ensures var i, zone, p, r := FirstFit(s.p.slots, size, 0), Zone(s.p, size), s.p, Step(s, AllocOp(size)).p;
      && (zone == 0 ==> r == p)
      && (zone != 0 ==>
            var b := zone - HEADER;
            && i < |p.slots| && b >= 0 && r.words == p.words[b := p.start + 28 + i * 16]
            && (s.h.free[i] != [] ==>
                  b == s.h.free[i][0]
                  && r == p.(words := r.words, slots := p.slots[i := p.slots[i].(freeList := Load(p.words, b))]))
            && (s.h.free[i] == [] ==>
                  var taken := HEADER + p.slots[i].blockSize;
                  b == p.nextBh && taken <= p.unused
                  && r == p.(words := r.words, nextBh := b + taken, unused := p.unused - taken,
                             slots := p.slots[i := p.slots[i].(usedBlocks := p.slots[i].usedBlocks + 1)])))
  {
    hide Apart, LiveIn, InUse, CountOk, BlockOk;
    var i := FirstFit(s.p.slots, size, 0);
    if i < |s.p.slots| {
      assert FreeOk(s.p, s.h, i);
      assert s.p.slots[i].blockSize + HEADER == Usage(s.p.slots[i].blockSize);
    }
  }

  // A block that is given back is the next one that its class hands out.
  lemma FreeReused(s: State, address: nat, size: nat)
    requires Inv(s) && Enabled(s, FreeOp(address)) && address != 0
    requires FirstFit(s.p.slots, size, 0) == s.h.live[address - HEADER]
    ensures Zone(Step(s, FreeOp(address)).p, size) == address
  {
    hide Apart, LiveIn, InUse, CountOk, BlockOk, FreeOk, Sizes, SlotAddress;
    ReleaseIs(s, address - HEADER);
    var r := Released(s, address - HEADER).p;
    FirstFitSame(s.p.slots, r.slots, size, 0);
  }

  // Giving a block back takes it from its holder and changes nothing else that holders or the
  // account can see; giving back NULL changes nothing.
  lemma FreeGives(s: State, address: nat)
    requires Inv(s) && Enabled(s, FreeOp(address))
    ensures |s.h.free| == |s.p.slots|
    ensures var r := Step(s, FreeOp(address));
      && (address == 0 ==> r == s)
      && (address != 0 ==>
            var b := address - HEADER;
            && b >= 0 && b in s.h.live && r.h.live == s.h.live - {b} && r.h.carved == s.h.carved
            && s.h.live[b] < |r.h.free| && r.h.free[s.h.live[b]] == [b] + s.h.free[s.h.live[b]]
            && r.p.unused == s.p.unused && r.p.nextBh == s.p.nextBh && r.p.total == s.p.total
            && SameClasses(s.p, r.p)
            && (forall a :: a != b ==> Load(r.p.words, a) == Load(s.p.words, a)))
  {
    hide Apart, LiveIn, InUse, CountOk, BlockOk, FreeOk, Sizes, SlotAddress;
    InvShape(s);
    if address != 0 {
      ReleaseIs(s, address - HEADER);
    }
  }

  // An allocation hands out a block that nobody holds, of the first class that is large
  // enough, or fails because there is no such class, or because every block of that class
  // is held and the rest of the area is too small for another one.
  lemma AllocGives(s: State, size: nat)
    requires Inv(s) && Enabled(s, AllocOp(size))
    ensures var i, zone, r := FirstFit(s.p.slots, size, 0), Zone(s.p, size), Step(s, AllocOp(size)).h;
      && (zone != 0 ==>
            zone >= HEADER && zone - HEADER !in s.h.live && r.live == s.h.live[zone - HEADER := i] && i < |s.p.slots|)
      && (zone == 0 ==> r == s.h)
      && (zone == 0 && i < |s.p.slots| ==>
            s.p.unused < HEADER + s.p.slots[i].blockSize
              && forall b :: b in s.h.carved && s.h.carved[b] == i ==> b in s.h.live)
  {
    hide Apart, LiveIn, InUse, CountOk;
    var i := FirstFit(s.p.slots, size, 0);
    if i < |s.p.slots| {
      assert FreeOk(s.p, s.h, i);
      if Zone(s.p, size) == 0 {
        assert s.h.free[i] == [];
        forall b | b in s.h.carved && s.h.carved[b] == i ensures b in s.h.live {
          assert BlockOk(s.p, s.h, b);
        }
      } else if s.p.slots[i].freeList != 0 {
        assert s.h.free[i][0] in s.h.free[i];
      } else {
        CarveNew(s, i);
      }
    }
  }

  // With ascending classes, the class of a block is the smallest one that is large enough.
  lemma SmallestClass(p: Pool, size: nat, j: nat)
    requires forall a, b :: 0 <= a < b < |p.slots| ==> p.slots[a].blockSize <= p.slots[b].blockSize
    requires j < |p.slots| && size <= p.slots[j].blockSize
    ensures var i := FirstFit(p.slots, size, 0); i <= j && size <= p.slots[i].blockSize <= p.slots[j].blockSize
  {
  }

  // After any run, every block that has been carved, held or free, is aligned and inside the
  // area behind the control data; a held block has been carved for the slot that it was
  // asked from, and its header is the address of that slot.
  lemma BlockPlaced(s: State, ops: seq<Op>, b: nat)
    requires Inv(s)
    ensures Shaped(s)
    ensures var r := Run(s, ops);
      && (b in r.h.carved ==>
            && r.h.carved[b] < |s.p.slots| && b % WORD == 0 && HeapStart(s.p) <= b
            && b + HEADER + s.p.slots[r.h.carved[b]].blockSize <= HeapStart(s.p) + s.p.total)
      && (b in r.h.live ==>
            b in r.h.carved && r.h.live[b] == r.h.carved[b]
              && Load(r.p.words, b) == SlotAddress(s.p.start, r.h.live[b]))
  {
    hide LiveIn, InUse, CountOk, FreeOk, SlotAddress, Enabled, Apart;
    RunKeeps(s, ops);
    var r := Run(s, ops);
    assert b in r.h.carved ==> BlockOk(r.p, r.h, b);
  }

  // After any run, two blocks that have been carved, held or free, do not overlap.
  lemma BlocksApart(s: State, ops: seq<Op>, a: nat, b: nat)
    requires Inv(s)
    ensures Shaped(s)
    ensures var r := Run(s, ops);
      a in r.h.carved && b in r.h.carved && a < b ==>
        r.h.carved[a] < |s.p.slots| && a + HEADER + s.p.slots[r.h.carved[a]].blockSize <= b
  {
    hide LiveIn, InUse, CountOk, FreeOk, SlotAddress, Enabled;
    RunKeeps(s, ops);
    var r := Run(s, ops);
    assert a in r.h.carved ==> BlockOk(r.p, r.h, a);
  }

  // After any run, a block that has been carved is either held, and then on no free list, or
  // on the free list of the slot it was carved for, and on no other; and the free lists
  // are finite chains through the headers, without repetition.
  lemma HeldOrFree(s: State, ops: seq<Op>, b: nat, i: nat)
    requires Inv(s) && i < |s.p.slots|
    ensures Shaped(s)
    ensures var r := Run(s, ops);
      && Chain(r.p.words, r.p.slots[i].freeList, r.h.free[i]) && Distinct(r.h.free[i])
      && (b in r.h.free[i] ==> b in r.h.carved)
      && (b in r.h.carved ==> (b in r.h.free[i] <==> b !in r.h.live && r.h.carved[b] == i))
  {
    hide LiveIn, InUse, CountOk, SlotAddress, Enabled, Apart, Chain;
    RunKeeps(s, ops);
    var r := Run(s, ops);
    assert FreeOk(r.p, r.h, i);
    assert b in r.h.carved ==> BlockOk(r.p, r.h, b);
  }

  // What a user wrote into a block stays there, whatever else happens, until it is freed
  // or written again.
  lemma PayloadKept(s: State, op: Op, b: nat, a: nat)
    requires Inv(s) && Enabled(s, op) && b in s.h.live && s.h.live[b] < |s.p.slots|
    requires Payload(b, s.p.slots[s.h.live[b]].blockSize, a)
    requires op != FreeOp(b + HEADER) && (op.StoreOp? ==> op.address != a)
    ensures b in Step(s, op).h.live && Load(Step(s, op).p.words, a) == Load(s.p.words, a)
  {
    hide LiveIn, InUse, CountOk, FreeOk, SlotAddress, Payload, Apart, Enabled;
    match op
    case AllocOp(size) =>
      AllocGives(s, size);
      var i := FirstFit(s.p.slots, size, 0);
      if Zone(s.p, size) != 0 {
        HeaderElsewhere(s, i, b, a);
      }
    case FreeOp(address) => FreeElsewhere(s, address, b, a);
    case StoreOp(_, _) =>
  }

  lemma FreeElsewhere(s: State, address: nat, b: nat, a: nat)
    requires Inv(s) && Enabled(s, FreeOp(address)) && address != b + HEADER && b in s.h.live
      && s.h.live[b] < |s.p.slots|
    requires Payload(b, s.p.slots[s.h.live[b]].blockSize, a)
    ensures var r := Step(s, FreeOp(address)); b in r.h.live && Load(r.p.words, a) == Load(s.p.words, a)
  {
    hide LiveIn, InUse, CountOk, SlotAddress, Payload, FreeOk, Apart;
    if address != 0 {
      assert BlockOk(s.p, s.h, b) && BlockOk(s.p, s.h, address - HEADER);
      ReleaseIs(s, address - HEADER);
      HeadersApart(s.p, s.h, b, address - HEADER, a);
    }
  }

  // The header of the block that slot i would hand out is not inside block b.
  lemma HeaderElsewhere(s: State, i: nat, b: nat, a: nat)
    requires Inv(s) && i < |s.p.slots| && b in s.h.live && s.h.live[b] < |s.p.slots|
    requires Payload(b, s.p.slots[s.h.live[b]].blockSize, a) && Header(s.p, i) != 0
    ensures a != Header(s.p, i)
  {
    hide LiveIn, InUse, CountOk, Apart;
    assert BlockOk(s.p, s.h, b) && FreeOk(s.p, s.h, i);
    if s.p.slots[i].freeList != 0 {
      var x := s.h.free[i][0];
      assert x in s.h.free[i];
      assert BlockOk(s.p, s.h, x);
      HeadersApart(s.p, s.h, b, x, a);
    }
  }

  // ----- accounting

  // The most blocks of slot i that are held at the same time during a run.
  ghost function MostHeld(s: State, ops: seq<Op>, i: nat): nat
    requires Shaped(s)
    decreases |ops|
  {
    hide Enabled;
    var n := |LiveIn(s.h.live, i)|;
    if ops == [] then n
    else
      var m := MostHeld(if Enabled(s, ops[0]) then Step(s, ops[0]) else s, ops[1..], i);
      if n > m then n else m
  }

  lemma UsedStep(s: State, op: Op, i: nat)
    requires Inv(s) && Enabled(s, op) && i < |s.p.slots|
    ensures var n, u := |LiveIn(Step(s, op).h.live, i)|, s.p.slots[i].usedBlocks;
      |Step(s, op).p.slots| == |s.p.slots| && Step(s, op).p.slots[i].usedBlocks == if n > u then n else u
  {
    hide Apart, LiveIn, InUse, SlotAddress, Payload, BlockOk, Sizes;
    StepKeeps(s, op);
    assert CountOk(s.p, s.h, i) && FreeOk(s.p, s.h, i) && CountOk(Step(s, op).p, Step(s, op).h, i);
    match op
    case AllocOp(size) =>
    case FreeOp(address) =>
      if address != 0 {
        ReleaseIs(s, address - HEADER);
      }
    case StoreOp(_, _) =>
  }

  lemma {:induction false} UsedRun(s: State, ops: seq<Op>, i: nat)
    requires Inv(s) && i < |s.p.slots|
    ensures Shaped(s)
    ensures var u, m := s.p.slots[i].usedBlocks, MostHeld(s, ops, i);
      Run(s, ops).p.slots[i].usedBlocks == if m > u then m else u
    decreases |ops|
  {
    hide Apart, LiveIn, InUse, BlockOk, Sizes, FreeOk, Enabled, Step;
    assert CountOk(s.p, s.h, i);
    if ops != [] {
      if Enabled(s, ops[0]) {
        UsedStep(s, ops[0], i);
        StepKeeps(s, ops[0]);
        UsedRun(Step(s, ops[0]), ops[1..], i);
      } else {
        UsedRun(s, ops[1..], i);
      }
    }
  }

  // After any run from a new pool: every byte is accounted for, used_blocks counts the held
  // and the free blocks, and is the most that were ever held at once.
  lemma Accounting(sizes: seq<nat>, start: nat, memorySize: nat, words: map<nat, nat>, ops: seq<Op>, i: nat)
    requires Area(sizes, start, memorySize, words) && Init(sizes, start, memorySize, words).Some? && i < |sizes|
    requires forall k :: 0 <= k < |sizes| ==> !TooLarge(sizes[k])
    ensures var s := Fresh(Init(sizes, start, memorySize, words).value);
      var r := Run(s, ops);
      && s.p.total == memorySize - (CONTROL + |sizes| * SLOT) == r.p.unused + InUse(r.p.slots)
      && r.p.slots[i].usedBlocks == MostHeld(s, ops, i) == |LiveIn(r.h.live, i)| + |r.h.free[i]|
  {
    hide Area, LiveIn, InUse, FreeOk, BlockOk, Sizes, Apart, Step, Enabled, Round, TooLarge;
    InitInv(sizes, start, memorySize, words);
    var s := Fresh(Init(sizes, start, memorySize, words).value);
    ControlFits(sizes, start, memorySize, words);
    RunKeeps(s, ops);
    UsedRun(s, ops, i);
    assert CountOk(Run(s, ops).p, Run(s, ops).h, i);
  }

  lemma ControlFits(sizes: seq<nat>, start: nat, memorySize: nat, words: map<nat, nat>)
    requires Area(sizes, start, memorySize, words)
    ensures ControlSize(|sizes|) == CONTROL + |sizes| * SLOT
  {
  }

  // ----- the one family of block sizes for which the pool breaks

  // The second of two allocations in a row does not hand out the block of the first.
  ghost predicate Differs(s: State, a: nat, b: nat) {
    Zone(s.p, a) != 0 && Zone(Alloc(s.p, a), b) != 0 ==> Zone(Alloc(s.p, a), b) != Zone(s.p, a)
  }

  ghost predicate AlwaysDiffers(s: State)
    requires Shaped(s)
  {
    forall ops, a: nat, b: nat :: a < UINT && b < UINT ==> Differs(Run(s, ops), a, b)
  }

  lemma TwoAllocs(s: State, a: nat, b: nat)
    requires Inv(s) && a < UINT && b < UINT
    ensures Differs(s, a, b)
  {
    hide Inv, Zone, Alloc;
    InvShape(s);
    AllocGives(s, a);
    AllocKeeps(s, a);
    AllocGives(Step(s, AllocOp(a)), b);
  }

  // A block of the largest rounded size takes no bytes in unsigned arithmetic: two
  // allocations in a row get the same block.
  lemma SameBlockTwice(p: Pool, j: nat)
    requires j < |p.slots| && p.slots[j].blockSize == UINT - WORD
    requires forall i :: 0 <= i < |p.slots| ==> p.slots[i].blockSize <= UINT - WORD && p.slots[i].freeList == 0
    requires p.nextBh != 0
    ensures Zone(p, UINT - WORD) == Zone(Alloc(p, UINT - WORD), UINT - WORD) == p.nextBh + HEADER
  {
    var i := FirstFit(p.slots, UINT - WORD, 0);
    var q := Alloc(p, UINT - WORD);
    assert q.slots[i].blockSize == UINT - WORD;
    FirstFitSame(p.slots, q.slots, UINT - WORD, 0);
  }

  lemma {:induction false} FirstFitSame(s: seq<Slot>, t: seq<Slot>, size: nat, i: nat)
    requires i <= |s| == |t| && forall k :: 0 <= k < |s| ==> s[k].blockSize == t[k].blockSize
    ensures FirstFit(s, size, i) == FirstFit(t, size, i)
    decreases |s| - i
  {
    if i < |s| {
      FirstFitSame(s, t, size, i + 1);
    }
  }

  // Consecutive allocations give different blocks, in every run, exactly when no block size
  // is between 2^32 - 7 and 2^32 - 4.
  lemma DistinctExactly(sizes: seq<nat>, start: nat, memorySize: nat, words: map<nat, nat>)
    requires Area(sizes, start, memorySize, words) && Init(sizes, start, memorySize, words).Some?
    ensures AlwaysDiffers(Fresh(Init(sizes, start, memorySize, words).value))
      <==> forall i :: 0 <= i < |sizes| ==> !TooLarge(sizes[i])
  {
    hide TooLarge, Round, Zone, Alloc, Differs, Inv;
    var s := Fresh(Init(sizes, start, memorySize, words).value);
    if forall i :: 0 <= i < |sizes| ==> !TooLarge(sizes[i]) {
      InitInv(sizes, start, memorySize, words);
      forall ops, a: nat, b: nat | a < UINT && b < UINT ensures Differs(Run(s, ops), a, b) {
        RunKeeps(s, ops);
        TwoAllocs(Run(s, ops), a, b);
      }
    } else {
      var j :| 0 <= j < |sizes| && TooLarge(sizes[j]);
      NotDistinct(sizes, start, memorySize, words, j);
    }
  }

  lemma NotDistinct(sizes: seq<nat>, start: nat, memorySize: nat, words: map<nat, nat>, j: nat)
    requires Area(sizes, start, memorySize, words) && Init(sizes, start, memorySize, words).Some?
    requires j < |sizes| && TooLarge(sizes[j])
    ensures !AlwaysDiffers(Fresh(Init(sizes, start, memorySize, words).value))
  {
    hide TooLarge, Round, Zone, Alloc;
    var s := Fresh(Init(sizes, start, memorySize, words).value);
    forall i | 0 <= i < |sizes| ensures Round(sizes[i]) <= UINT - WORD {
      RoundIs(sizes[i]);
    }
    RoundIs(sizes[j]);
    SameBlockTwice(s.p, j);
    assert !Differs(Run(s, []), UINT - WORD, UINT - WORD);
  }
}

// The pool as the source keeps it: each method is one function of src/mempool.c.
module Mempools {
  import opened Seqs
  import opened MempoolSpec
  import opened MempoolProtocol

  class Mempool {
    const start: nat
    const slots: array<Slot>
    var total: nat
    var unused: nat
    var nextBh: nat
    var words: map<nat, nat>
    ghost var history: History

    ghost function View(): Pool
      reads this, slots
    {
      Pool(start, total, unused, nextBh, slots[..], words)
    }

    ghost predicate Valid()
      reads this, slots
    {
      Inv(State(View(), history))
    }

    // The stores of gyros_mempool_init.
    constructor (sizes: array<nat>, start: nat, memorySize: nat, words: map<nat, nat>)
      requires Init(sizes[..], start, memorySize, words).Some?
      ensures View() == Init(sizes[..], start, memorySize, words).value
      ensures history == MempoolProtocol.Fresh(View()).h && fresh(slots)
    {
      var control := ControlSize(sizes.Length);
      this.start, this.words := start, words;
      total, unused, nextBh := memorySize - control, memorySize - control, start + control;
      slots := new Slot[sizes.Length](_ => Slot(0, 0, 0));
      history := History(map[], map[], seq(sizes.Length, _ => []));
      new;
      for i := 0 to sizes.Length
        invariant forall k :: 0 <= k < i ==> slots[k] == Slot(Round(sizes[k]), 0, 0)
        invariant this.start == start && this.words == words
        invariant total == unused == memorySize - control && nextBh == start + control
        invariant history == History(map[], map[], seq(sizes.Length, _ => []))
      {
        slots[i] := Slot(Round(sizes[i]), 0, 0);
      }
      assert slots[..] == Init(sizes[..], start, memorySize, words).value.slots;
      assert history.free == MempoolProtocol.Fresh(View()).h.free;
    }

    // gyros_mempool_init
    static method Create(sizes: array<nat>, start: nat, memorySize: nat, words: map<nat, nat>) returns (pool: Mempool?)
      requires Area(sizes[..], start, memorySize, words)
      ensures pool == null <==> Init(sizes[..], start, memorySize, words) == None
      ensures pool != null ==> fresh(pool) && fresh(pool.slots)
      ensures pool != null ==> pool.View() == Init(sizes[..], start, memorySize, words).value
      ensures pool != null && (forall i :: 0 <= i < sizes.Length ==> !TooLarge(sizes[i])) ==> pool.Valid()
    {
      hide Area, Inv, Round, TooLarge;
      if ControlSize(sizes.Length) > memorySize {
        return null;
      }
      pool := new Mempool(sizes, start, memorySize, words);
      ghost var fits := forall i :: 0 <= i < sizes.Length ==> !TooLarge(sizes[i]);
      if fits {
        InitInv(sizes[..], start, memorySize, words);
      }
    }

    // gyros_try_alloc
    method TryAlloc(size: nat) returns (zone: nat)
      requires Valid() && size < UINT
      modifies this, slots
      ensures View() == Alloc(old(View()), size) && zone == Zone(old(View()), size)
      ensures Valid() && history == Step(old(State(View(), history)), AllocOp(size)).h
    {
      hide Inv, Taken, InUse, SlotAddress;
      InvShape(State(View(), history));
      BumpAddress(State(View(), history));
      AllocKeeps(State(View(), history), size);
      history := Step(State(View(), history), AllocOp(size)).h;
      ghost var p := View();
      var bh := 0;
      var i := 0;
      while i < slots.Length
        invariant i <= slots.Length && View() == p && bh == 0
        invariant FirstFit(p.slots, size, i) == FirstFit(p.slots, size, 0)
      {
        if size <= slots[i].blockSize {
          bh := TakeBlock(i);
          break;
        }
        i := i + 1;
      }
      return if bh != 0 then bh + HEADER else 0;
    }

    // The interrupt-disabled part of gyros_try_alloc.
    method TakeBlock(i: nat) returns (bh: nat)
      requires i < slots.Length && nextBh != 0
      modifies this`unused, this`nextBh, this`words, slots
      ensures View() == Take(old(View()), i) && bh == Header(old(View()), i)
    {
      bh := slots[i].freeList;
      if bh != 0 {
        slots[i] := slots[i].(freeList := Load(words, bh));
      } else if Usage(slots[i].blockSize) <= unused {
        var usage := Usage(slots[i].blockSize);
        bh := nextBh;
        nextBh := nextBh + usage;
        unused := unused - usage;
        slots[i] := slots[i].(usedBlocks := slots[i].usedBlocks + 1);
      }
      if bh != 0 {
        words := words[bh := SlotAddress(start, i)];
      }
    }

    // gyros_free, of NULL or of a block that is held.
    method FreeZone(address: nat)
      requires Valid() && Enabled(State(View(), history), FreeOp(address))
      modifies this`words, this`history, slots
      ensures View() == Free(old(View()), address)
      ensures Valid() && history == Step(old(State(View(), history)), FreeOp(address)).h
    {
      hide Inv, InUse, SlotAt;
      InvShape(State(View(), history));
      FreeKeeps(State(View(), history), address);
      ghost var s := State(View(), history);
      history := Step(s, FreeOp(address)).h;
      if address != 0 {
        var bh := address - HEADER;
        SlotOf(s, bh);
        var i := SlotAt(start, Load(words, bh));
        var next := slots[i].freeList;
        slots[i] := slots[i].(freeList := bh);
        words := words[bh := next];
      }
    }
  }

  lemma BumpAddress(s: State)
    requires Inv(s)
    ensures s.p.nextBh != 0
  {
  }

  // The header of a held block leads to a slot.
  lemma SlotOf(s: State, bh: nat)
    requires Inv(s) && bh in s.h.live
    ensures bh in s.p.words && 0 <= SlotAt(s.p.start, Load(s.p.words, bh)) < |s.p.slots|
  {
    hide Apart, LiveIn, InUse, CountOk, FreeOk;
    assert BlockOk(s.p, s.h, bh);
    SlotDecoded(s.p.start, s.h.live[bh]);
  }
}
