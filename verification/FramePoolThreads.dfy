/** Any number of cores allocate and free frames at once: the free list is searched and
    changed under a spinlock, the bump offset advances by compare-and-swap. */
module FramePoolThreads {
  import opened Prelude
  import opened FramePools

  /** Where a core stands in `coro_frame_alloc` or `coro_frame_free`. A link is the list's head
      (`None`) or the `next` of a frame; `i` is history: how many frames the walk has passed. */
  datatype Pc =
    | Idle
    | WantList(n: nat)                                     // allocating: about to take the lock
    | AtLink(n: nat, link: Option<nat>, i: nat)            // holds the lock, about to read the link
    | AtFrame(n: nat, link: Option<nat>, cur: nat, i: nat) // about to compare the frame's size
    | Taking(n: nat, link: Option<nat>, cur: nat, i: nat)  // it fits; about to read its `next`
    | Cutting(n: nat, link: Option<nat>, cur: nat, next: Option<nat>, i: nat)  // about to write the link
    | Unlocking(b: Block)        // took b from the list, still holds the lock
    | Leaving(n: nat)            // nothing fitted, still holds the lock
    | LoadOffset(n: nat)
    | Swap(n: nat, seen: nat)    // compare-and-swap pending
    | Carved(b: Block)           // the swap succeeded
    | Releasing(b: Block)        // freeing: about to take the lock
    | Sizing(b: Block)           // holds the lock, about to write the size
    | Heading(b: Block)          // about to read the head
    | Nexting(b: Block, head: Option<nat>)  // about to write `next`
    | Linking(b: Block)          // about to write the head
    | Freed                      // done, still holds the lock

  /** The list as memory holds it. */
  datatype List = List(head: Option<nat>, memory: map<nat, FreeFrame>)

  datatype State = State(
    size: nat, offset: nat, lock: Option<nat>, list: List, pcs: map<nat, Pc>,
    live: set<Block>,    // history: the frames in use
    free: seq<Block>,    // history: the frames linked into the list, in order
    blocks: seq<Block>,  // history: everything carved so far, in order
    asked: map<nat, nat>)  // history: the size of each core's last request

  datatype Step =
    | AllocStart(n: nat) | Lock | ReadLink | ReadSize | ReadNext | WriteLink | HandOver | Leave
    | Load | SwapOk | SwapFails | Exhausted | Return
    | FreeStart(b: Block) | LockToFree | WriteSize | ReadHead | WriteNext | WriteHead | Unlock
    | Scribble(b: Block, data: FreeFrame)  // a frame in use is written by its user

  function Init(size: nat, cores: set<nat>): State {
    State(size, 0, None, List(None, map[]), map c | c in cores :: Idle, {}, [], [], map[])
  }

  /** The block a core holds between taking it from one place and putting it in another. */
  function Held(pc: Pc): Option<Block> {
    match pc
    case Unlocking(b) => Some(b)
    case Carved(b) => Some(b)
    case Releasing(b) => Some(b)
    case Sizing(b) => Some(b)
    case Heading(b) => Some(b)
    case Nexting(b, _) => Some(b)
    case Linking(b) => Some(b)
    case _ => None
  }

  /** Inside the critical section. */
  predicate InList(pc: Pc) {
    || pc.AtLink? || pc.AtFrame? || pc.Taking? || pc.Cutting? || pc.Unlocking? || pc.Leaving?
    || pc.Sizing? || pc.Heading? || pc.Nexting? || pc.Linking? || pc.Freed?
  }

  /** What lies in memory at a frame's address. */
  function At(l: List, a: nat): FreeFrame {
    if a in l.memory then l.memory[a] else FreeFrame(None, 0)
  }

  function Follow(l: List, link: Option<nat>): Option<nat> {
    match link case None => l.head case Some(a) => At(l, a).next
  }

  function Redirect(l: List, link: Option<nat>, to: Option<nat>): List {
    match link
    case None => l.(head := to)
    case Some(a) => l.(memory := l.memory[a := At(l, a).(next := to)])
  }

  predicate Enabled(s: State, c: nat, step: Step) {
    && c in s.pcs
    && match step
      case AllocStart(n) => s.pcs[c] == Idle && n > 0 && n % ALIGN == 0
      case Lock => s.pcs[c].WantList? && s.lock == None
      case ReadLink => s.pcs[c].AtLink?
      case ReadSize => s.pcs[c].AtFrame?
      case ReadNext => s.pcs[c].Taking?
      case WriteLink => s.pcs[c].Cutting?
      case HandOver => s.pcs[c].Unlocking?
      case Leave => s.pcs[c].Leaving?
      case Load => s.pcs[c].LoadOffset?
      case SwapOk => s.pcs[c].Swap? && s.pcs[c].n + s.pcs[c].seen <= s.size && s.offset == s.pcs[c].seen
      case SwapFails => s.pcs[c].Swap? && s.pcs[c].n + s.pcs[c].seen <= s.size
      case Exhausted => s.pcs[c].Swap? && s.pcs[c].n > s.size - s.pcs[c].seen
      case Return => s.pcs[c].Carved?
      case FreeStart(b) => s.pcs[c] == Idle && b in s.live
      case LockToFree => s.pcs[c].Releasing? && s.lock == None
      case WriteSize => s.pcs[c].Sizing?
      case ReadHead => s.pcs[c].Heading?
      case WriteNext => s.pcs[c].Nexting?
      case WriteHead => s.pcs[c].Linking?
      case Unlock => s.pcs[c].Freed?
      case Scribble(b, _) => b in s.live
  }

  function Apply(s: State, c: nat, step: Step): State
    requires Enabled(s, c, step)
  {
    var pc := s.pcs[c];
    match step
    case AllocStart(n) => s.(pcs := s.pcs[c := WantList(n)], asked := s.asked[c := n])
    case Lock => s.(lock := Some(c), pcs := s.pcs[c := AtLink(pc.n, None, 0)])
    case ReadLink =>
      var cur := Follow(s.list, pc.link);
      s.(pcs := s.pcs[c := if cur == None then Leaving(pc.n) else AtFrame(pc.n, pc.link, cur.value, pc.i)])
    case ReadSize =>
      s.(pcs := s.pcs[c := if At(s.list, pc.cur).size == pc.n then Taking(pc.n, pc.link, pc.cur, pc.i)
                           else AtLink(pc.n, Some(pc.cur), pc.i + 1)])
    case ReadNext => s.(pcs := s.pcs[c := Cutting(pc.n, pc.link, pc.cur, At(s.list, pc.cur).next, pc.i)])
    case WriteLink =>
      var b := Block(pc.cur, pc.n);
      s.(list := Redirect(s.list, pc.link, pc.next), free := Without(s.free, {b}), pcs := s.pcs[c := Unlocking(b)])
    case HandOver => s.(lock := None, live := s.live + {pc.b}, pcs := s.pcs[c := Idle])
    case Leave => s.(lock := None, pcs := s.pcs[c := LoadOffset(pc.n)])
    case Load => s.(pcs := s.pcs[c := Swap(pc.n, s.offset)])
    case SwapOk =>
      var b := Block(pc.seen, pc.n);
      s.(offset := pc.seen + pc.n, blocks := s.blocks + [b], pcs := s.pcs[c := Carved(b)])
    case SwapFails => s.(pcs := s.pcs[c := Swap(pc.n, s.offset)])
    case Exhausted => s.(pcs := s.pcs[c := Idle])
    case Return => s.(live := s.live + {pc.b}, pcs := s.pcs[c := Idle])
    case FreeStart(b) => s.(live := s.live - {b}, pcs := s.pcs[c := Releasing(b)])
    case LockToFree => s.(lock := Some(c), pcs := s.pcs[c := Sizing(pc.b)])
    case WriteSize =>
      s.(list := s.list.(memory := s.list.memory[pc.b.addr := At(s.list, pc.b.addr).(size := pc.b.size)]),
         pcs := s.pcs[c := Heading(pc.b)])
    case ReadHead => s.(pcs := s.pcs[c := Nexting(pc.b, s.list.head)])
    case WriteNext =>
      s.(list := s.list.(memory := s.list.memory[pc.b.addr := At(s.list, pc.b.addr).(next := pc.head)]),
         pcs := s.pcs[c := Linking(pc.b)])
    case WriteHead =>
      s.(list := s.list.(head := Some(pc.b.addr)), free := [pc.b] + s.free, pcs := s.pcs[c := Freed])
    case Unlock => s.(lock := None, pcs := s.pcs[c := Idle])
    case Scribble(b, data) => s.(list := s.list.(memory := s.list.memory[b.addr := data]))
  }

  predicate Holds(s: State, c: nat, b: Block) {
    c in s.pcs && Held(s.pcs[c]) == Some(b)
  }

  predicate Asking(pc: Pc) {
    pc.WantList? || pc.AtLink? || pc.AtFrame? || pc.Taking? || pc.Cutting? || pc.Leaving? || pc.LoadOffset? || pc.Swap?
  }

  /** The carved blocks tile the pool from 0 to the offset, which stays inside it. */
  ghost predicate CarveInv(s: State) {
    && Tiles(s.blocks) && s.offset == Bytes(s.blocks) <= s.size
    && (forall c :: c in s.pcs ==> AskOk(s.pcs[c], s.offset))
  }

  /** Every carved block is in use, on the list or held by one core, and in one place only. */
  ghost predicate PlaceInv(s: State) {
    && NoDups(s.free)
    && (forall b :: b in s.live || b in s.free ==> b in s.blocks)
    && (forall c :: c in s.pcs && Held(s.pcs[c]).Some? ==> Held(s.pcs[c]).value in s.blocks)
    && (forall b :: b in s.blocks ==> b in s.live || b in s.free || exists c :: Holds(s, c, b))
    && (forall b :: b in s.live ==> b !in s.free)
    && (forall c :: c in s.pcs && Held(s.pcs[c]).Some? ==>
          Held(s.pcs[c]).value !in s.live && Held(s.pcs[c]).value !in s.free)
    && (forall c, d :: c in s.pcs && d in s.pcs && c != d && Held(s.pcs[c]).Some? ==> Held(s.pcs[c]) != Held(s.pcs[d]))
  }

  /** Only the lock's holder is inside the critical section. */
  ghost predicate LockInv(s: State) {
    forall c :: c in s.pcs && InList(s.pcs[c]) ==> s.lock == Some(c)
  }

  /** The link a walk that has passed `i` frames stands at. */
  predicate LinkAt(free: seq<Block>, i: nat, link: Option<nat>) {
    i <= |free| && link == if i == 0 then None else Some(free[i - 1].addr)
  }

  /** None of the first `i` frames has the size. */
  predicate NoFit(free: seq<Block>, i: nat, n: nat) {
    i <= |free| && forall j :: 0 <= j < i ==> free[j].size != n
  }

  /** What a core inside the critical section has read or written still holds. */
  predicate WalkOk(free: seq<Block>, l: List, pc: Pc) {
    match pc
    case AtLink(n, link, i) => LinkAt(free, i, link) && NoFit(free, i, n)
    case AtFrame(n, link, cur, i) => LinkAt(free, i, link) && NoFit(free, i, n) && i < |free| && free[i].addr == cur
    case Taking(n, link, cur, i) =>
      LinkAt(free, i, link) && NoFit(free, i, n) && i < |free| && free[i] == Block(cur, n)
    case Cutting(n, link, cur, next, i) =>
      && LinkAt(free, i, link) && NoFit(free, i, n) && i < |free| && free[i] == Block(cur, n)
      && next == LinkTo(free, i + 1)
    case Leaving(n) => NoFit(free, |free|, n)
    case Heading(b) => At(l, b.addr).size == b.size
    case Nexting(b, head) => At(l, b.addr).size == b.size && head == l.head
    case Linking(b) => b.addr in l.memory && At(l, b.addr) == FreeFrame(l.head, b.size)
    case _ => true
  }

  /** Memory holds the list of the free frames, whoever is walking it. */
  ghost predicate ListInv(s: State) {
    && Linked(s.list.head, s.list.memory, s.free)
    && forall c :: c in s.pcs ==> WalkOk(s.free, s.list, s.pcs[c])
  }

  /** A core works on its last request, and brings a block of that size. */
  predicate CallOk(pc: Pc, c: nat, asked: map<nat, nat>) {
    && (Asking(pc) ==> c in asked && asked[c] == pc.n)
    && (pc.Unlocking? || pc.Carved? ==> c in asked && asked[c] == pc.b.size)
  }

  ghost predicate CallInv(s: State) {
    forall c :: c in s.pcs ==> CallOk(s.pcs[c], c, s.asked)
  }

  ghost predicate Inv(s: State) {
    CarveInv(s) && PlaceInv(s) && LockInv(s) && ListInv(s) && CallInv(s)
  }

  lemma CallKeeps(s: State, c: nat, step: Step)
    requires CallInv(s) && Enabled(s, c, step)
    ensures CallInv(Apply(s, c, step))
  {
    var t := Apply(s, c, step);
    assert CallOk(s.pcs[c], c, s.asked);
    OwnCall(s, c, step);
    forall d | d in t.pcs && d != c
      ensures CallOk(t.pcs[d], d, t.asked)
    {
      assert CallOk(s.pcs[d], d, s.asked);
    }
  }

  lemma OwnCall(s: State, c: nat, step: Step)
    requires Enabled(s, c, step) && CallOk(s.pcs[c], c, s.asked)
    ensures CallOk(Apply(s, c, step).pcs[c], c, Apply(s, c, step).asked)
  {
    match step
    case Lock => SearchCall(s, c, step);
    case ReadLink => SearchCall(s, c, step);
    case ReadSize => SearchCall(s, c, step);
    case ReadNext => SearchCall(s, c, step);
    case WriteLink => SearchCall(s, c, step);
    case _ =>
  }

  lemma SearchCall(s: State, c: nat, step: Step)
    requires Enabled(s, c, step) && CallOk(s.pcs[c], c, s.asked)
    requires step.Lock? || step.ReadLink? || step.ReadSize? || step.ReadNext? || step.WriteLink?
    ensures CallOk(Apply(s, c, step).pcs[c], c, Apply(s, c, step).asked)
  {
  }

  /** The size a core asked for and the offset it saw. */
  ghost predicate AskOk(pc: Pc, offset: nat) {
    (Asking(pc) ==> pc.n > 0 && pc.n % ALIGN == 0) && (pc.Swap? ==> pc.seen <= offset)
  }

  lemma AskKeeps(s: State, c: nat, step: Step)
    requires Enabled(s, c, step) && AskOk(s.pcs[c], s.offset)
    ensures AskOk(Apply(s, c, step).pcs[c], Apply(s, c, step).offset)
  {
  }

  lemma OffsetGrows(s: State, c: nat, step: Step)
    requires Enabled(s, c, step)
    ensures Apply(s, c, step).offset >= s.offset
    ensures !step.SwapOk? ==> Apply(s, c, step).offset == s.offset && Apply(s, c, step).blocks == s.blocks
    ensures Apply(s, c, step).size == s.size && Apply(s, c, step).pcs == s.pcs[c := Apply(s, c, step).pcs[c]]
  {
    if step.Scribble? {
      assert s.pcs[c := s.pcs[c]] == s.pcs;
    }
  }

  lemma CarveBlock(s: State, c: nat)
    requires CarveInv(s) && Enabled(s, c, SwapOk)
    ensures var t := Apply(s, c, SwapOk); Tiles(t.blocks) && t.offset == Bytes(t.blocks) <= t.size
  {
    var b := Block(s.pcs[c].seen, s.pcs[c].n);
    assert AskOk(s.pcs[c], s.offset);
    BytesAligned(s.blocks);
    TilesSnoc(s.blocks, b);
    BytesSnoc(s.blocks, b);
  }

  lemma CarveKeeps(s: State, c: nat, step: Step)
    requires CarveInv(s) && Enabled(s, c, step)
    ensures CarveInv(Apply(s, c, step))
  {
    var t := Apply(s, c, step);
    assert AskOk(s.pcs[c], s.offset);
    AskKeeps(s, c, step);
    OffsetGrows(s, c, step);
    if step.SwapOk? {
      CarveBlock(s, c);
    }
    forall d | d in t.pcs
      ensures AskOk(t.pcs[d], t.offset)
    {
      if d != c {
        assert AskOk(s.pcs[d], s.offset);
      }
    }
  }

  // ---------------------------------------------------------------------------
  // The list in memory
  // ---------------------------------------------------------------------------

  /** Different blocks have different addresses. */
  lemma AddrsDiffer(s: State, a: Block, b: Block)
    requires CarveInv(s) && a in s.blocks && b in s.blocks && a != b
    ensures a.addr != b.addr
  {
    TilesApart(s.blocks, a, b);
  }

  lemma FreeAddrs(s: State)
    requires CarveInv(s) && PlaceInv(s)
    ensures DistinctAddrs(s.free)
  {
    forall i, j | 0 <= i < j < |s.free|
      ensures s.free[i].addr != s.free[j].addr
    {
      AddrsDiffer(s, s.free[i], s.free[j]);
    }
  }

  /** Writing at an address that is on no free frame leaves the list alone. */
  lemma WrittenElsewhere(l: List, free: seq<Block>, a: nat, data: FreeFrame)
    requires Linked(l.head, l.memory, free) && forall i :: 0 <= i < |free| ==> free[i].addr != a
    ensures Linked(l.head, l.memory[a := data], free)
  {
  }

  lemma OffTheList(s: State, b: Block)
    requires CarveInv(s) && PlaceInv(s) && b in s.blocks && b !in s.free
    ensures forall i :: 0 <= i < |s.free| ==> s.free[i].addr != b.addr
  {
    forall i | 0 <= i < |s.free|
      ensures s.free[i].addr != b.addr
    {
      AddrsDiffer(s, s.free[i], b);
    }
  }

  /** `*link = frame->next` takes the frame found out of the list. */
  lemma CutList(s: State, c: nat)
    requires CarveInv(s) && PlaceInv(s) && ListInv(s) && Enabled(s, c, WriteLink)
    ensures var t := Apply(s, c, WriteLink);
      Linked(t.list.head, t.list.memory, t.free) && Block(s.pcs[c].cur, s.pcs[c].n) in s.free
  {
    var pc := s.pcs[c];
    assert WalkOk(s.free, s.list, pc);
    FreeAddrs(s);
    DropAt(s.free, pc.i);
    UnlinkKeeps(s.list.head, s.list.memory, s.free, pc.i, pc.link, pc.cur);
    Walk(s.list.head, s.list.memory, s.free, pc.i);
  }

  /** One core's step leaves what the others have read: they are outside the critical section
      whenever the list changes, and a frame in use is on nobody's way. */
  lemma OthersWalk(s: State, c: nat, step: Step, d: nat)
    requires CarveInv(s) && PlaceInv(s) && LockInv(s) && ListInv(s) && Enabled(s, c, step) && d in s.pcs && d != c
    ensures var t := Apply(s, c, step); d in t.pcs && WalkOk(t.free, t.list, t.pcs[d])
  {
    assert WalkOk(s.free, s.list, s.pcs[d]);
    if step.Scribble? && Held(s.pcs[d]).Some? {
      assert Held(s.pcs[d]).value !in s.live && Held(s.pcs[d]).value in s.blocks;
      AddrsDiffer(s, step.b, Held(s.pcs[d]).value);
    }
  }

  /** The scribbling core's own position. */
  lemma OwnScribble(s: State, c: nat, step: Step)
    requires CarveInv(s) && PlaceInv(s) && ListInv(s) && Enabled(s, c, step) && step.Scribble?
    ensures var t := Apply(s, c, step); WalkOk(t.free, t.list, t.pcs[c])
  {
    assert WalkOk(s.free, s.list, s.pcs[c]);
    if Held(s.pcs[c]).Some? {
      AddrsDiffer(s, step.b, Held(s.pcs[c]).value);
    }
  }

  lemma ReadLinkWalk(s: State, c: nat)
    requires Linked(s.list.head, s.list.memory, s.free) && Enabled(s, c, ReadLink) && WalkOk(s.free, s.list, s.pcs[c])
    ensures WalkOk(s.free, s.list, Apply(s, c, ReadLink).pcs[c])
  {
    var pc := s.pcs[c];
    if pc.i > 0 {
      Walk(s.list.head, s.list.memory, s.free, pc.i - 1);
    }
  }

  lemma ReadSizeWalk(s: State, c: nat)
    requires Linked(s.list.head, s.list.memory, s.free) && Enabled(s, c, ReadSize) && WalkOk(s.free, s.list, s.pcs[c])
    ensures WalkOk(s.free, s.list, Apply(s, c, ReadSize).pcs[c])
  {
    Walk(s.list.head, s.list.memory, s.free, s.pcs[c].i);
  }

  lemma ReadNextWalk(s: State, c: nat)
    requires Linked(s.list.head, s.list.memory, s.free) && Enabled(s, c, ReadNext) && WalkOk(s.free, s.list, s.pcs[c])
    ensures WalkOk(s.free, s.list, Apply(s, c, ReadNext).pcs[c])
  {
    Walk(s.list.head, s.list.memory, s.free, s.pcs[c].i);
  }

  lemma FreeingWalk(s: State, c: nat, step: Step)
    requires Enabled(s, c, step) && WalkOk(s.free, s.list, s.pcs[c])
    requires step.LockToFree? || step.WriteSize? || step.ReadHead? || step.WriteNext? || step.WriteHead? || step.Unlock?
    ensures var t := Apply(s, c, step); WalkOk(t.free, t.list, t.pcs[c])
  {
  }

  lemma OwnWalk(s: State, c: nat, step: Step)
    requires ListInv(s) && Enabled(s, c, step) && !step.Scribble?
    ensures var t := Apply(s, c, step); WalkOk(t.free, t.list, t.pcs[c])
  {
    assert WalkOk(s.free, s.list, s.pcs[c]);
    match step
    case ReadLink => ReadLinkWalk(s, c);
    case ReadSize => ReadSizeWalk(s, c);
    case ReadNext => ReadNextWalk(s, c);
    case LockToFree => FreeingWalk(s, c, step);
    case WriteSize => FreeingWalk(s, c, step);
    case ReadHead => FreeingWalk(s, c, step);
    case WriteNext => FreeingWalk(s, c, step);
    case WriteHead => FreeingWalk(s, c, step);
    case Unlock => FreeingWalk(s, c, step);
    case _ =>
  }

  lemma LinkedKeeps(s: State, c: nat, step: Step)
    requires CarveInv(s) && PlaceInv(s) && ListInv(s) && Enabled(s, c, step)
    ensures var t := Apply(s, c, step); Linked(t.list.head, t.list.memory, t.free)
  {
    var pc := s.pcs[c];
    assert WalkOk(s.free, s.list, pc);
    match step
    case WriteLink => CutList(s, c);
    case WriteSize =>
      OffTheList(s, pc.b);
      WrittenElsewhere(s.list, s.free, pc.b.addr, At(s.list, pc.b.addr).(size := pc.b.size));
    case WriteNext =>
      OffTheList(s, pc.b);
      WrittenElsewhere(s.list, s.free, pc.b.addr, At(s.list, pc.b.addr).(next := pc.head));
    case WriteHead =>
      OffTheList(s, pc.b);
      PushLinked(s.list.head, s.list.memory, s.free, pc.b);
      assert s.list.memory[pc.b.addr := FreeFrame(s.list.head, pc.b.size)] == s.list.memory;
    case Scribble(b, data) =>
      OffTheList(s, b);
      WrittenElsewhere(s.list, s.free, b.addr, data);
    case _ =>
  }

  lemma WalksKeep(s: State, c: nat, step: Step, d: nat)
    requires CarveInv(s) && PlaceInv(s) && LockInv(s) && ListInv(s) && Enabled(s, c, step) && d in s.pcs
    ensures var t := Apply(s, c, step); d in t.pcs && WalkOk(t.free, t.list, t.pcs[d])
  {
    if d != c {
      OthersWalk(s, c, step, d);
    } else if step.Scribble? {
      OwnScribble(s, c, step);
    } else {
      OwnWalk(s, c, step);
    }
  }

  lemma ListKeeps(s: State, c: nat, step: Step)
    requires CarveInv(s) && PlaceInv(s) && LockInv(s) && ListInv(s) && Enabled(s, c, step)
    ensures ListInv(Apply(s, c, step))
  {
    var t := Apply(s, c, step);
    LinkedKeeps(s, c, step);
    OffsetGrows(s, c, step);
    forall d | d in t.pcs
      ensures WalkOk(t.free, t.list, t.pcs[d])
    {
      WalksKeep(s, c, step, d);
    }
  }

  // ---------------------------------------------------------------------------
  // Every block in one place
  // ---------------------------------------------------------------------------

  /** A block the offset has not reached yet is nowhere. */
  lemma NotCarved(q: seq<Block>, b: Block)
    requires Tiles(q) && b.addr >= Bytes(q)
    ensures b !in q
  {
    forall i | 0 <= i < |q|
      ensures q[i] != b
    {
      BytesMonotone(q, i, |q|);
      assert q[..|q|] == q;
    }
  }

  /** Moves of one block between its places keep every block in exactly one place. */
  ghost predicate Elsewhere(s: State, t: State, c: nat) {
    c in s.pcs && t.pcs.Keys == s.pcs.Keys && forall d :: d in s.pcs && d != c ==> t.pcs[d] == s.pcs[d]
  }

  lemma StillHeld(s: State, t: State, c: nat, b: Block)
    requires Elsewhere(s, t, c) && (exists d :: Holds(s, d, b)) && Held(s.pcs[c]) != Some(b)
    ensures exists d :: Holds(t, d, b)
  {
    var d :| Holds(s, d, b);
    assert Holds(t, d, b);
  }

  lemma QuietPlaces(s: State, t: State, c: nat)
    requires PlaceInv(s) && Elsewhere(s, t, c) && Held(t.pcs[c]) == Held(s.pcs[c])
    requires t.free == s.free && t.live == s.live && t.blocks == s.blocks
    ensures PlaceInv(t)
  {
    forall b | b in t.blocks
      ensures b in t.live || b in t.free || exists d :: Holds(t, d, b)
    {
      if b !in s.live && b !in s.free {
        var d :| Holds(s, d, b);
        assert Holds(t, d, b);
      }
    }
  }

  lemma TakePlaces(s: State, c: nat)
    requires PlaceInv(s) && Enabled(s, c, WriteLink) && Block(s.pcs[c].cur, s.pcs[c].n) in s.free
    ensures PlaceInv(Apply(s, c, WriteLink))
  {
    var t, b := Apply(s, c, WriteLink), Block(s.pcs[c].cur, s.pcs[c].n);
    WithoutNoDups(s.free, {b});
    assert Holds(t, c, b);
    forall d | d in t.blocks && d != b && d !in t.live && d !in t.free
      ensures exists e :: Holds(t, e, d)
    {
      StillHeld(s, t, c, d);
    }
  }

  lemma GivePlaces(s: State, t: State, c: nat, b: Block)
    requires PlaceInv(s) && Holds(s, c, b) && Elsewhere(s, t, c) && Held(t.pcs[c]) == None && t.blocks == s.blocks
    requires (t.live == s.live + {b} && t.free == s.free) || (t.live == s.live && t.free == [b] + s.free)
    ensures PlaceInv(t)
  {
    assert b in s.blocks;
    forall d | d in t.blocks && d != b && d !in t.live && d !in t.free
      ensures exists e :: Holds(t, e, d)
    {
      StillHeld(s, t, c, d);
    }
  }

  lemma CarvePlaces(s: State, c: nat)
    requires CarveInv(s) && PlaceInv(s) && Enabled(s, c, SwapOk)
    ensures PlaceInv(Apply(s, c, SwapOk))
  {
    var t, b := Apply(s, c, SwapOk), Block(s.pcs[c].seen, s.pcs[c].n);
    NotCarved(s.blocks, b);
    assert Holds(t, c, b);
    forall d | d in s.blocks && d !in t.live && d !in t.free
      ensures exists e :: Holds(t, e, d)
    {
      StillHeld(s, t, c, d);
    }
  }

  lemma FreePlaces(s: State, c: nat, b: Block)
    requires PlaceInv(s) && Enabled(s, c, FreeStart(b))
    ensures PlaceInv(Apply(s, c, FreeStart(b)))
  {
    var t := Apply(s, c, FreeStart(b));
    assert Holds(t, c, b);
    forall d | d in t.blocks && d != b && d !in t.live && d !in t.free
      ensures exists e :: Holds(t, e, d)
    {
      StillHeld(s, t, c, d);
    }
  }

  predicate Moves(step: Step) {
    step.WriteLink? || step.HandOver? || step.SwapOk? || step.Return? || step.FreeStart? || step.WriteHead?
  }

  lemma QuietStep(s: State, c: nat, step: Step)
    requires Enabled(s, c, step) && !Moves(step)
    ensures var t := Apply(s, c, step);
      && Elsewhere(s, t, c) && Held(t.pcs[c]) == Held(s.pcs[c])
      && t.free == s.free && t.live == s.live && t.blocks == s.blocks
  {
  }

  lemma GiveStep(s: State, c: nat, step: Step)
    requires PlaceInv(s) && Enabled(s, c, step) && (step.HandOver? || step.Return? || step.WriteHead?)
    ensures PlaceInv(Apply(s, c, step))
  {
    GivePlaces(s, Apply(s, c, step), c, s.pcs[c].b);
  }

  lemma CutStep(s: State, c: nat)
    requires CarveInv(s) && PlaceInv(s) && ListInv(s) && Enabled(s, c, WriteLink)
    ensures PlaceInv(Apply(s, c, WriteLink))
  {
    CutList(s, c);
    TakePlaces(s, c);
  }

  lemma PlaceKeeps(s: State, c: nat, step: Step)
    requires CarveInv(s) && PlaceInv(s) && ListInv(s) && Enabled(s, c, step)
    ensures PlaceInv(Apply(s, c, step))
  {
    if !Moves(step) {
      QuietStep(s, c, step);
      QuietPlaces(s, Apply(s, c, step), c);
    } else if step.WriteLink? {
      CutStep(s, c);
    } else if step.SwapOk? {
      CarvePlaces(s, c);
    } else if step.FreeStart? {
      FreePlaces(s, c, step.b);
    } else {
      GiveStep(s, c, step);
    }
  }

  lemma LockKeeps(s: State, c: nat, step: Step)
    requires LockInv(s) && Enabled(s, c, step)
    ensures LockInv(Apply(s, c, step))
  {
  }

  predicate Runs(s: State, steps: seq<(nat, Step)>, t: State)
    decreases |steps|
  {
    if steps == [] then t == s
    else Enabled(s, steps[0].0, steps[0].1) && Runs(Apply(s, steps[0].0, steps[0].1), steps[1..], t)
  }

  lemma {:induction false} RunKeeps(s: State, steps: seq<(nat, Step)>, t: State)
    requires Inv(s) && Runs(s, steps, t)
    ensures Inv(t)
    decreases |steps|
  {
    if steps != [] {
      var (c, step) := steps[0];
      CarveKeeps(s, c, step);
      PlaceKeeps(s, c, step);
      LockKeeps(s, c, step);
      CallKeeps(s, c, step);
      ListKeeps(s, c, step);
      RunKeeps(Apply(s, c, step), steps[1..], t);
    }
  }

  /** Under every interleaving of any cores' single reads and writes: frames in use, frames on the
      list and frames being handed over are 64-byte aligned blocks that exactly tile the pool up to the offset; each
      block is in one place only; the list that memory holds is exactly the free frames, also
      in the middle of a walk; and the offset never passes the end of the pool. */
  lemma PoolPartitioned(size: nat, cores: set<nat>, steps: seq<(nat, Step)>, s: State)
    requires Runs(Init(size, cores), steps, s)
    ensures Tiles(s.blocks) && s.offset == Bytes(s.blocks) <= size
    ensures forall b :: b in s.blocks <==> b in s.live || b in s.free || exists c :: Holds(s, c, b)
    ensures forall b :: b in s.live ==> b !in s.free && forall c :: !Holds(s, c, b)
    ensures forall b, c :: b in s.free ==> !Holds(s, c, b)
    ensures forall b, c, d :: Holds(s, c, b) && Holds(s, d, b) ==> c == d
    ensures NoDups(s.free) && Linked(s.list.head, s.list.memory, s.free)
  {
    Reached(size, cores, steps, s);
  }

  lemma {:induction false} SizeKept(s: State, steps: seq<(nat, Step)>, t: State)
    requires Runs(s, steps, t)
    ensures t.size == s.size
    decreases |steps|
  {
    if steps != [] {
      SizeKept(Apply(s, steps[0].0, steps[0].1), steps[1..], t);
    }
  }

  /** Two frames in use at once never share a byte, and every frame is aligned. */
  lemma LiveFramesDisjoint(size: nat, cores: set<nat>, steps: seq<(nat, Step)>, s: State, a: Block, b: Block)
    requires Runs(Init(size, cores), steps, s) && a in s.live && b in s.live && a != b
    ensures a.addr + a.size <= b.addr || b.addr + b.size <= a.addr
    ensures a.addr % ALIGN == 0 && a.size % ALIGN == 0 && a.addr + a.size <= size
  {
    PoolPartitioned(size, cores, steps, s);
    TilesApart(s.blocks, a, b);
  }

  lemma TilesApart(q: seq<Block>, a: Block, b: Block)
    requires Tiles(q) && a in q && b in q && a != b
    ensures a.addr + a.size <= b.addr || b.addr + b.size <= a.addr
    ensures a.addr % ALIGN == 0 && a.size % ALIGN == 0 && a.addr + a.size <= Bytes(q)
  {
    var i :| 0 <= i < |q| && q[i] == a;
    var j :| 0 <= j < |q| && q[j] == b;
    TileInside(q, i);
    if i < j {
      TilesDisjoint(q, i, j);
    } else {
      TilesDisjoint(q, j, i);
    }
  }

  lemma TileInside(q: seq<Block>, i: nat)
    requires Tiles(q) && i < |q|
    ensures q[i].addr + q[i].size <= Bytes(q)
  {
    BytesMonotone(q, i, |q|);
    assert q[..|q|] == q;
  }

  /** What a core's allocation does, among any interleaving: it takes the first frame on the list
      that has the size asked for; it leaves the list only when no frame there has that size; it
      fails only when the untouched tail is smaller; and what it returns has exactly that size and
      was not in use. */
  lemma AllocReturns(size: nat, cores: set<nat>, steps: seq<(nat, Step)>, s: State, c: nat)
    requires Runs(Init(size, cores), steps, s)
    ensures Enabled(s, c, WriteLink) ==> Taken(s, Apply(s, c, WriteLink), c)
    ensures Enabled(s, c, Leave) ==> c in s.asked && FirstFit(s.free, s.asked[c]) == |s.free|
    ensures Enabled(s, c, Exhausted) ==> c in s.asked && size < s.offset + s.asked[c]
    ensures Enabled(s, c, HandOver) ==> Returned(s, Apply(s, c, HandOver), c)
    ensures Enabled(s, c, Return) ==> Returned(s, Apply(s, c, Return), c)
  {
    Reached(size, cores, steps, s);
    ListPart(s, c);
    ReturnPart(s, c);
  }

  lemma Reached(size: nat, cores: set<nat>, steps: seq<(nat, Step)>, s: State)
    requires Runs(Init(size, cores), steps, s)
    ensures Inv(s) && s.size == size
  {
    assert Tiles([]);
    RunKeeps(Init(size, cores), steps, s);
    SizeKept(Init(size, cores), steps, s);
  }

  lemma ListPart(s: State, c: nat)
    requires Inv(s)
    ensures Enabled(s, c, WriteLink) ==> Taken(s, Apply(s, c, WriteLink), c)
    ensures Enabled(s, c, Leave) ==> c in s.asked && FirstFit(s.free, s.asked[c]) == |s.free|
  {
    if Enabled(s, c, WriteLink) {
      Takes(s, c);
    } else if Enabled(s, c, Leave) {
      Leaves(s, c);
    }
  }

  lemma ReturnPart(s: State, c: nat)
    requires Inv(s)
    ensures Enabled(s, c, Exhausted) ==> c in s.asked && s.size < s.offset + s.asked[c]
    ensures Enabled(s, c, HandOver) ==> Returned(s, Apply(s, c, HandOver), c)
    ensures Enabled(s, c, Return) ==> Returned(s, Apply(s, c, Return), c)
  {
    if Enabled(s, c, HandOver) {
      Returns(s, c, HandOver);
    } else if Enabled(s, c, Return) {
      Returns(s, c, Return);
    } else if Enabled(s, c, Exhausted) {
      Fails(s, c);
    }
  }

  /** The first frame of the size asked for has left the list. */
  predicate Taken(s: State, t: State, c: nat) {
    c in s.asked && FirstFit(s.free, s.asked[c]) < |s.free| && t.free == RemoveAt(s.free, FirstFit(s.free, s.asked[c]))
  }

  /** A block of the size asked for, not in use before, is now. */
  ghost predicate Returned(s: State, t: State, c: nat) {
    c in s.asked && exists b: Block :: b !in s.live && b.size == s.asked[c] && t.live == s.live + {b}
  }

  lemma Takes(s: State, c: nat)
    requires PlaceInv(s) && ListInv(s) && CallInv(s) && Enabled(s, c, WriteLink)
    ensures Taken(s, Apply(s, c, WriteLink), c)
  {
    var pc := s.pcs[c];
    assert CallOk(pc, c, s.asked) && WalkOk(s.free, s.list, pc);
    FitIs(s.free, pc.n, pc.i);
    DropAt(s.free, pc.i);
  }

  lemma Leaves(s: State, c: nat)
    requires ListInv(s) && CallInv(s) && Enabled(s, c, Leave)
    ensures c in s.asked && FirstFit(s.free, s.asked[c]) == |s.free|
  {
    assert CallOk(s.pcs[c], c, s.asked) && WalkOk(s.free, s.list, s.pcs[c]);
    FitIs(s.free, s.pcs[c].n, |s.free|);
  }

  lemma Fails(s: State, c: nat)
    requires CarveInv(s) && CallInv(s) && Enabled(s, c, Exhausted)
    ensures c in s.asked && s.size < s.offset + s.asked[c]
  {
    assert CallOk(s.pcs[c], c, s.asked) && AskOk(s.pcs[c], s.offset);
  }

  lemma Returns(s: State, c: nat, step: Step)
    requires PlaceInv(s) && CallInv(s) && Enabled(s, c, step) && (step.HandOver? || step.Return?)
    ensures Returned(s, Apply(s, c, step), c)
  {
    assert CallOk(s.pcs[c], c, s.asked);
    assert Held(s.pcs[c]) == Some(s.pcs[c].b);
  }
}
