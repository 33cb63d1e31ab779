/** Coroutines that take turns on one stack. Resuming a coroutine copies the live
    bytes of the current owner out to its save buffer and its own bytes back in.
    Whatever the interleaving, every coroutine finds the bytes it left. */
module SharedStack {
  import opened Arith

  const WORD_LIMIT: nat := 0x1_0000_0000_0000_0000
  const SLOT_BYTES: nat := 8

  // ---- copying -------------------------------------------------------------

  /** When the unrolled copy may be used: 16-byte aligned operands and 16n+8 bytes,
      n at most 8. */
  predicate ShortCopyOk(dstAddr: nat, srcAddr: nat, n: nat) {
    srcAddr % 16 == 0 && dstAddr % 16 == 0 && n % 16 == 8 && n / 16 <= 8
  }

  /** The byte offsets the unrolled copy writes: whole 16-byte words from the front,
      and the last eight bytes. */
  predicate Covered(n: nat, i: nat) {
    i < 16 * (n / 16) || n - 8 <= i < n
  }

  /** Word copy plus tail copy is a full copy exactly when at most eight bytes
      remain after the whole words. */
  lemma CoverageExact(n: nat)
    requires n >= 8
    ensures (forall i :: 0 <= i < n ==> Covered(n, i)) <==> n % 16 <= 8
  {
    if n % 16 > 8 {
      assert !Covered(n, 16 * (n / 16));
    }
  }

  /** Between an aligned buffer and an aligned stack pointer, the unrolled copy serves
      exactly the frames of at most 136 bytes. */
  lemma FastPath(sp: nat, bufferAddr: nat, retPtr: nat)
    requires sp % 16 == 0 && bufferAddr % 16 == 0 && retPtr % 16 == 8 && sp <= retPtr
    ensures ShortCopyOk(bufferAddr, sp, retPtr - sp) <==> retPtr - sp <= 136
    ensures ShortCopyOk(sp, bufferAddr, retPtr - sp) <==> retPtr - sp <= 136
  {
    assert sp == 16 * (sp / 16) && retPtr == 16 * (retPtr / 16) + 8;
  }

  /** The nine unrolled cases: all words are loaded before any is stored. */
  method ShortCopy(dst: array<bv8>, d: nat, src: array<bv8>, s: nat, n: nat)
    requires d + n <= dst.Length && s + n <= src.Length && dst != src
    requires n % 16 == 8 && n / 16 <= 8
    modifies dst
    ensures dst[d..d + n] == src[s..s + n]
    ensures forall i :: 0 <= i < dst.Length && !(d <= i < d + n) ==> dst[i] == old(dst[i])
  {
    var words := n / 16;
    assert n == 16 * words + 8;
    var xmm := src[s..s + 16 * words];
    forall i | 0 <= i < 16 * words {
      dst[d + i] := xmm[i];
    }
    var tail := src[s + n - 8..s + n];
    forall i | 0 <= i < 8 {
      dst[d + 16 * words + i] := tail[i];
    }
    assert forall k :: d <= k < d + 16 * words ==> dst[k] == src[s + (k - d)];
    assert forall k :: d + 16 * words <= k < d + n ==> dst[k] == src[s + (k - d)];
    SameSlices(dst[..], d, src[..], s, n);
    assert dst[..][d..d + n] == dst[d..d + n] && src[..][s..s + n] == src[s..s + n];
  }

  lemma SameSlices(a: seq<bv8>, d: nat, b: seq<bv8>, s: nat, n: nat)
    requires d + n <= |a| && s + n <= |b|
    requires forall k :: d <= k < d + n ==> a[k] == b[s + (k - d)]
    ensures a[d..d + n] == b[s..s + n]
  {}

  method Memcpy(dst: array<bv8>, d: nat, src: array<bv8>, s: nat, n: nat)
    requires d + n <= dst.Length && s + n <= src.Length && dst != src
    modifies dst
    ensures dst[d..d + n] == src[s..s + n]
    ensures forall i :: 0 <= i < dst.Length && !(d <= i < d + n) ==> dst[i] == old(dst[i])
  {
    forall i | 0 <= i < n {
      dst[d + i] := src[s + i];
    }
  }

  method Copy(dst: array<bv8>, d: nat, dstAddr: nat, src: array<bv8>, s: nat, srcAddr: nat, n: nat)
    requires d + n <= dst.Length && s + n <= src.Length && dst != src
    modifies dst
    ensures dst[d..d + n] == src[s..s + n]
    ensures forall i :: 0 <= i < dst.Length && !(d <= i < d + n) ==> dst[i] == old(dst[i])
  {
    if ShortCopyOk(dstAddr, srcAddr, n) {
      ShortCopy(dst, d, src, s, n);
    } else {
      Memcpy(dst, d, src, s, n);
    }
  }

  // ---- sizing ----------------------------------------------------------------

  lemma Doubled(size: nat, n: nat)
    ensures size * Pow(2, n) * 2 == size * Pow(2, n + 1)
  {
    var p := Pow(2, n);
    assert size * p * 2 == size * (2 * p);
  }

  datatype Sizing = Sized(mapped: nat, usable: nat) | Aborted

  /** Bytes to map and bytes to use for a requested stack size. A guard page costs one
      page, and an unaligned size is rounded up to whole pages. */
  function StackSize(request: nat, guarded: bool, page: nat): (r: Sizing)
    requires request < WORD_LIMIT && 0 < page && 2 * page < WORD_LIMIT
    ensures r.Sized? ==> r.usable >= WantedSize(request) && r.mapped < WORD_LIMIT
    ensures r.Sized? && guarded ==>
      r.mapped == r.usable + page && r.mapped % page == 0 && r.usable < WantedSize(request) + page
    ensures r.Sized? && !guarded ==> r.mapped == r.usable == WantedSize(request)
    ensures r.Aborted? ==> guarded && WantedSize(request) + 2 * page >= 0x1_0000_0000_0000_0000
  {
    var sz := WantedSize(request);
    if !guarded then Sized(sz, sz)
    else if sz <= page then
      RoundUp(1, page);
      Sized(2 * page, 2 * page - page)
    else
      RoundUp(sz / page, page);
      SplitByPage(sz, page);
      if sz % page != 0 then
        var floor := sz - sz % page;
        if floor + 2 * page >= WORD_LIMIT then Aborted else Sized(floor + 2 * page, floor + 2 * page - page)
      else if sz + page >= WORD_LIMIT then Aborted
      else Sized(sz + page, sz)
  }

  /** Zero asks for 2 MiB, and nothing is smaller than 4096 bytes. */
  function WantedSize(request: nat): (sz: nat)
    ensures sz >= 4096 && (request >= 4096 ==> sz == request)
    ensures (request == 0 ==> sz == 0x20_0000) && (0 < request <= 4096 ==> sz == 4096)
  {
    if request == 0 then 1024 * 1024 * 2 else if request < 4096 then 4096 else request
  }

  lemma SplitByPage(sz: nat, page: nat)
    requires page > 0
    ensures sz - sz % page == (sz / page) * page
  {}

  lemma RoundUp(q: nat, page: nat)
    requires page > 0
    ensures (q * page + page) % page == 0 && (q * page + 2 * page) % page == 0
  {
    MultipleMod(q + 1, page);
    MultipleMod(q + 2, page);
    assert q * page + page == (q + 1) * page;
    assert q * page + 2 * page == (q + 2) * page;
  }

  // ---- the shared stack ------------------------------------------------------

  class Coroutine {
    const stack: ShareStack
    /** Saved stack pointer. */
    var sp: nat
    /** Save buffer, its address, and how many of its bytes count. */
    var buffer: array<bv8>
    var bufferAddr: nat
    var validSize: nat
    /** The bytes between the stack pointer and the return slot when the coroutine
        last gave up control. */
    ghost var frame: seq<bv8>

    constructor (stack: ShareStack, saveSize: nat, bufferAddr: nat)
      requires saveSize < WORD_LIMIT / 2
      ensures this.stack == stack && sp == stack.retPtr && validSize == 0 && frame == []
      ensures fresh(buffer) && buffer.Length == if saveSize == 0 then 64 else saveSize
    {
      this.stack := stack;
      sp := stack.retPtr;
      buffer := new bv8[if saveSize == 0 then 64 else saveSize](_ => 0);
      this.bufferAddr := bufferAddr;
      validSize := 0;
      frame := [];
    }
  }

  class ShareStack {
    /** The stack's memory and its address. */
    const memory: array<bv8>
    const base: nat
    const highPtr: nat
    const retPtr: nat
    const limit: nat
    var owner: Coroutine?
    var alignValidSize: nat
    /** The coroutines created on this stack and not yet finished or destroyed. */
    ghost var live: set<Coroutine>

    /** Lowest address a coroutine may use. */
    function Low(): int {
      highPtr - limit
    }

    ghost predicate Shape() {
      && base <= Low() <= retPtr
      && retPtr + SLOT_BYTES == highPtr
      && highPtr <= base + memory.Length < WORD_LIMIT / 2
    }

    /** Content of the stack from address sp up to the return slot. */
    function Bytes(sp: nat): seq<bv8>
      requires Shape() && Low() <= sp <= retPtr
      reads memory
    {
      memory[sp - base..retPtr - base]
    }

    ghost predicate Holds(c: Coroutine)
      requires Shape()
      reads this`owner, memory, c, c.buffer
    {
      && c.stack == this && c.buffer != memory && 0 < c.buffer.Length < WORD_LIMIT
      && Low() <= c.sp <= retPtr && |c.frame| == retPtr - c.sp
      && (if owner == c then Bytes(c.sp) == c.frame
          else c.validSize == |c.frame| <= c.buffer.Length && c.buffer[..c.validSize] == c.frame)
    }

    /** Every live coroutine's bytes are on the stack if it owns it, else in its own
        save buffer. */
    ghost predicate Valid()
      reads this, memory, live, set c | c in live :: c.buffer
    {
      && Shape()
      && (owner != null ==> owner in live) && (owner == null <==> alignValidSize == 0)
      && (forall c <- live :: Holds(c))
      && (forall c <- live, d <- live :: c != d ==> c.buffer != d.buffer)
    }

    /** The stack inside `size` usable bytes at address `base`: the return slot is
        below the highest 16-byte boundary that leaves two pointers of room. */
    constructor (base: nat, size: nat)
      requires 16 + 3 * SLOT_BYTES < size && base + size < WORD_LIMIT / 2
      ensures Valid() && live == {} && owner == null
      ensures highPtr % 16 == 0 && this.base == base
      ensures highPtr == ((size - 16 + base) / 16) * 16
      ensures limit == size - 32 && retPtr == highPtr - 8
      ensures fresh(memory)
    {
      memory := new bv8[size](_ => 0);
      this.base := base;
      highPtr := ((size - 2 * SLOT_BYTES + base) / 16) * 16;
      retPtr := ((size - 2 * SLOT_BYTES + base) / 16) * 16 - SLOT_BYTES;
      limit := size - 16 - 2 * SLOT_BYTES;
      owner := null;
      alignValidSize := 0;
      live := {};
    }

    method Create(saveSize: nat, bufferAddr: nat) returns (c: Coroutine)
      requires Valid() && saveSize < WORD_LIMIT / 2
      modifies this`live
      ensures Valid() && fresh(c) && fresh(c.buffer) && live == old(live) + {c}
      ensures c.frame == []
    {
      c := new Coroutine(this, saveSize, bufferAddr);
      live := live + {c};
    }

    /** Doubling until the valid bytes fit; the 64-bit size cannot wrap to zero. */
    method GrowTo(size: nat, valid: nat) returns (grown: nat, ghost doublings: nat)
      requires 0 < size < WORD_LIMIT && valid < WORD_LIMIT / 2
      ensures valid <= grown < WORD_LIMIT && grown == size * Pow(2, doublings)
      ensures if size < valid then grown < 2 * valid else grown == size
    {
      grown, doublings := size, 0;
      if grown < valid {
        while true
          invariant 0 < size <= grown < valid && grown == size * Pow(2, doublings)
          decreases valid - grown
        {
          assert (grown * 2) % WORD_LIMIT == grown * 2;
          Doubled(size, doublings);
          grown, doublings := (grown * 2) % WORD_LIMIT, doublings + 1;
          if grown >= valid {
            break;
          }
        }
      }
    }

    /** A save buffer that is too small is replaced, not preserved: its bytes are stale. */
    method EnsureRoom(o: Coroutine, newAddr: nat)
      requires Valid() && owner == o
      modifies o`validSize, o`buffer, o`bufferAddr
      ensures Valid() && o.validSize == |o.frame| <= o.buffer.Length
      ensures if retPtr - o.sp <= old(o.buffer.Length) then o.buffer == old(o.buffer) else fresh(o.buffer)
    {
      o.validSize := retPtr - o.sp;
      if o.buffer.Length < o.validSize {
        var size, _ := GrowTo(o.buffer.Length, o.validSize);
        o.buffer := new bv8[size](_ => 0);
        o.bufferAddr := newAddr;
      }
    }

    method CopyOut(o: Coroutine)
      requires Valid() && owner == o
      requires o.validSize == |o.frame| <= o.buffer.Length
      modifies this`owner, this`alignValidSize, o.buffer
      ensures Valid() && owner == null
    {
      if o.validSize > 0 {
        Copy(o.buffer, 0, o.bufferAddr, memory, o.sp - base, o.sp, o.validSize);
      }
      assert o.buffer[..o.validSize] == o.frame;
      owner := null;
      alignValidSize := 0;
    }

    /** The owner's live bytes go to its save buffer. */
    method SaveOwner(newAddr: nat)
      requires Valid() && owner != null
      modifies this`owner, this`alignValidSize, owner`validSize, owner`buffer, owner`bufferAddr, owner.buffer
      ensures Valid() && owner == null
      ensures forall c <- live :: c.buffer == old(c.buffer) || fresh(c.buffer)
    {
      var o := owner;
      EnsureRoom(o, newAddr);
      CopyOut(o);
    }

    /** The coroutine's saved bytes go back to the addresses they came from. */
    method Load(c: Coroutine)
      requires Valid() && owner == null && c in live
      modifies this`owner, this`alignValidSize, memory
      ensures Valid() && owner == c && alignValidSize == |c.frame| + 8
    {
      CopyIn(c);
      alignValidSize := c.validSize + SLOT_BYTES;
      owner := c;
    }

    method CopyIn(c: Coroutine)
      requires Valid() && owner == null && c in live
      modifies memory
      ensures Valid() && Bytes(c.sp) == c.frame
    {
      if c.validSize > 0 {
        Copy(memory, retPtr - c.validSize - base, retPtr - c.validSize, c.buffer, 0, c.bufferAddr, c.validSize);
      }
      assert Bytes(c.sp) == c.buffer[..c.validSize];
    }

    /** Resumes c. While it runs it may leave anything between the low end and the
        return slot (`region`) and stop with any stack pointer in that range. `seen`
        is what it finds above its stack pointer when it gets control. */
    method Resume(c: Coroutine, newSp: nat, region: seq<bv8>, newAddr: nat) returns (seen: seq<bv8>)
      requires Valid() && c in live
      requires Low() <= newSp <= retPtr && |region| == retPtr - Low()
      modifies this`owner, this`alignValidSize, memory, live, set d | d in live :: d.buffer
      ensures Valid() && owner == c
      ensures seen == old(c.frame)
      ensures c.frame == region[newSp - Low()..]
      ensures forall d <- live :: d != c ==> d.frame == old(d.frame)
      ensures forall d <- live :: d.buffer == old(d.buffer) || fresh(d.buffer)
    {
      if owner != c {
        if owner != null {
          SaveOwner(newAddr);
        }
        Load(c);
      }
      seen := Bytes(c.sp);
      RunUntilYield(c, newSp, region);
    }

    method RunUntilYield(c: Coroutine, newSp: nat, region: seq<bv8>)
      requires Valid() && c in live && owner == c
      requires Low() <= newSp <= retPtr && |region| == retPtr - Low()
      modifies memory, c`sp, c`frame
      ensures Valid()
      ensures c.frame == region[newSp - Low()..]
    {
      Scribble(region);
      c.sp := newSp;
      c.frame := region[newSp - Low()..];
      assert Bytes(newSp) == Bytes(Low())[newSp - Low()..];
    }

    /** Anything may be left on the stack. */
    method Scribble(region: seq<bv8>)
      requires Shape() && |region| == retPtr - Low()
      modifies memory
      ensures Bytes(Low()) == region
    {
      forall i | 0 <= i < |region| {
        memory[Low() - base + i] := region[i];
      }
    }

    /** The running coroutine finishes: it gives up the stack without saving. */
    method Exit(c: Coroutine)
      requires Valid() && c in live && owner == c
      modifies this`owner, this`alignValidSize, this`live
      ensures Valid() && live == old(live) - {c} && owner == null
    {
      owner := null;
      alignValidSize := 0;
      live := live - {c};
    }

    method Destroy(c: Coroutine)
      requires Valid()
      modifies this`owner, this`alignValidSize, this`live
      ensures Valid() && live == old(live) - {c}
      ensures owner == if old(owner) == c then null else old(owner)
    {
      if owner == c {
        owner := null;
        alignValidSize := 0;
      }
      live := live - {c};
    }
  }

  // ---- whole runs --------------------------------------------------------------

  /** What the host program may do. A resumed coroutine leaves `region` on the stack
      and yields with stack pointer `newSp`; a finishing one leaves nothing. */
  datatype Op =
    | Create(saveSize: nat, bufferAddr: nat)
    | Resume(who: nat, newSp: nat, region: seq<bv8>, newAddr: nat)
    | Finish(who: nat, newAddr: nat)
    | Destroy(who: nat)

  /** The reference machine: every coroutine has a stack of its own. */
  datatype Private = Alive(frame: seq<bv8>) | Gone

  predicate Legal(m: seq<Private>, op: Op, low: int, top: int) {
    match op
    case Create(saveSize, _) => saveSize < WORD_LIMIT / 2
    case Resume(who, newSp, region, _) =>
      who < |m| && m[who].Alive? && low <= newSp <= top && |region| == top - low
    case Finish(who, _) => who < |m| && m[who].Alive?
    case Destroy(who) => who < |m| && m[who].Alive?
  }

  function PrivateStep(m: seq<Private>, op: Op, low: int, top: int): seq<Private>
    requires Legal(m, op, low, top)
  {
    match op
    case Create(_, _) => m + [Alive([])]
    case Resume(who, newSp, region, _) => m[who := Alive(region[newSp - low..])]
    case Finish(who, _) => m[who := Gone]
    case Destroy(who) => m[who := Gone]
  }

  /** The bytes a coroutine finds when the step gives it control. */
  function Seen(m: seq<Private>, op: Op, low: int, top: int): seq<seq<bv8>>
    requires Legal(m, op, low, top)
  {
    match op
    case Create(_, _) => []
    case Resume(who, _, _, _) => [m[who].frame]
    case Finish(who, _) => [m[who].frame]
    case Destroy(_) => []
  }

  predicate LegalRun(m: seq<Private>, ops: seq<Op>, low: int, top: int)
    decreases |ops|
  {
    ops == [] || (Legal(m, ops[0], low, top) && LegalRun(PrivateStep(m, ops[0], low, top), ops[1..], low, top))
  }

  function PrivateRun(m: seq<Private>, ops: seq<Op>, low: int, top: int): seq<seq<bv8>>
    requires LegalRun(m, ops, low, top)
    decreases |ops|
  {
    if ops == [] then []
    else Seen(m, ops[0], low, top) + PrivateRun(PrivateStep(m, ops[0], low, top), ops[1..], low, top)
  }

  /** The coroutines `cos` on the shared stack hold what the reference machine holds. */
  ghost predicate Agrees(s: ShareStack, cos: seq<Coroutine>, m: seq<Private>)
    reads s`live, s.live
  {
    && |cos| == |m|
    && (forall i, j :: 0 <= i < j < |cos| ==> cos[i] != cos[j])
    && (forall i :: 0 <= i < |cos| ==> (m[i].Alive? <==> cos[i] in s.live))
    && (forall i :: 0 <= i < |cos| && m[i].Alive? ==> cos[i].frame == m[i].frame)
  }

  method StepCreate(s: ShareStack, cos: seq<Coroutine>, saveSize: nat, bufferAddr: nat, ghost m: seq<Private>)
    returns (after: seq<Coroutine>)
    requires s.Valid() && Agrees(s, cos, m) && saveSize < WORD_LIMIT / 2
    modifies s`live
    ensures s.Valid() && Agrees(s, after, m + [Alive([])])
    ensures forall d <- s.live :: d in old(s.live) || fresh(d)
    ensures forall d <- s.live :: fresh(d.buffer) || (d in old(s.live) && d.buffer == old(d.buffer))
  {
    var c := s.Create(saveSize, bufferAddr);
    after := cos + [c];
  }

  method StepResume(s: ShareStack, cos: seq<Coroutine>, who: nat, newSp: nat, region: seq<bv8>, newAddr: nat,
      ghost m: seq<Private>)
    returns (bytes: seq<bv8>)
    requires s.Valid() && Agrees(s, cos, m) && who < |m| && m[who].Alive?
    requires s.Low() <= newSp <= s.retPtr && |region| == s.retPtr - s.Low()
    modifies s, s.memory, s.live, set d | d in s.live :: d.buffer
    ensures s.Valid() && Agrees(s, cos, m[who := Alive(region[newSp - s.Low()..])])
    ensures bytes == m[who].frame && s.owner == cos[who] && s.live == old(s.live)
    ensures forall d <- s.live :: d.buffer == old(d.buffer) || fresh(d.buffer)
  {
    bytes := s.Resume(cos[who], newSp, region, newAddr);
  }

  method StepFinish(s: ShareStack, cos: seq<Coroutine>, who: nat, newAddr: nat, ghost m: seq<Private>)
    returns (bytes: seq<bv8>)
    requires s.Valid() && Agrees(s, cos, m) && who < |m| && m[who].Alive?
    modifies s, s.memory, s.live, set d | d in s.live :: d.buffer
    ensures s.Valid() && Agrees(s, cos, m[who := Gone])
    ensures bytes == m[who].frame && s.live <= old(s.live)
    ensures forall d <- s.live :: d.buffer == old(d.buffer) || fresh(d.buffer)
  {
    bytes := StepResume(s, cos, who, s.retPtr, seq(s.retPtr - s.Low(), _ => 0), newAddr, m);
    s.Exit(cos[who]);
  }

  method Step(s: ShareStack, cos: seq<Coroutine>, op: Op, ghost m: seq<Private>)
    returns (after: seq<Coroutine>, seen: seq<seq<bv8>>)
    requires s.Valid() && Agrees(s, cos, m) && Legal(m, op, s.Low(), s.retPtr)
    modifies s, s.memory, s.live, set d | d in s.live :: d.buffer
    ensures s.Valid() && Agrees(s, after, PrivateStep(m, op, s.Low(), s.retPtr))
    ensures seen == Seen(m, op, s.Low(), s.retPtr)
    ensures forall d <- s.live :: d in old(s.live) || fresh(d)
    ensures forall d <- s.live :: fresh(d.buffer) || (d in old(s.live) && d.buffer == old(d.buffer))
  {
    after, seen := cos, [];
    match op
    case Create(saveSize, bufferAddr) =>
      after := StepCreate(s, cos, saveSize, bufferAddr, m);
    case Resume(who, newSp, region, newAddr) =>
      var bytes := StepResume(s, cos, who, newSp, region, newAddr, m);
      seen := [bytes];
    case Finish(who, newAddr) =>
      var bytes := StepFinish(s, cos, who, newAddr, m);
      seen := [bytes];
    case Destroy(who) =>
      s.Destroy(cos[who]);
  }

  /** Isolation over every interleaving: whatever order coroutines are created, resumed,
      finished and destroyed in, each finds at every resumption exactly what it would
      find on a private stack. */
  method RunAll(s: ShareStack, cos: seq<Coroutine>, ops: seq<Op>, ghost m: seq<Private>)
    returns (seen: seq<seq<bv8>>)
    requires s.Valid() && Agrees(s, cos, m) && LegalRun(m, ops, s.Low(), s.retPtr)
    modifies s, s.memory, s.live, set d | d in s.live :: d.buffer
    ensures s.Valid()
    ensures seen == PrivateRun(m, ops, s.Low(), s.retPtr)
    decreases |ops|
  {
    if ops == [] {
      seen := [];
    } else {
      var after, found := Step(s, cos, ops[0], m);
      var rest := RunAll(s, after, ops[1..], PrivateStep(m, ops[0], s.Low(), s.retPtr));
      seen := found + rest;
    }
  }

  /** A run on a new stack. */
  method RunNew(base: nat, size: nat, ops: seq<Op>) returns (s: ShareStack, seen: seq<seq<bv8>>)
    requires 16 + 3 * SLOT_BYTES < size && base + size < WORD_LIMIT / 2
    requires var top := ((size - 2 * SLOT_BYTES + base) / 16) * 16;
      LegalRun([], ops, top - (size - 16 - 2 * SLOT_BYTES), top - SLOT_BYTES)
    ensures s.Valid() && LegalRun([], ops, s.Low(), s.retPtr)
    ensures seen == PrivateRun([], ops, s.Low(), s.retPtr)
  {
    s := new ShareStack(base, size);
    seen := RunAll(s, [], ops, []);
  }
}
