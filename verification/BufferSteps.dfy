/** The buffer pool under any number of processes: get and release in single memory steps, the list
    heads under the lock, the in-use flags outside it. */
module BufferSteps {
  import opened Options
  import opened BufferLayout
  import opened BufferPool

  type Pid = nat

  /** Where a process is in a call.  From Fitting to Taken and from Linking to Leaving it has the lock. */
  datatype Pc =
    | Idle
    | Fitting(size: int, index: nat)
    | Probing(size: int, index: nat)
    | Taking(size: int, index: nat, buf: nat, next: nat)
    | Taken(size: int, buf: nat)
    | Marking(size: int, buf: nat)
    | Clearing(buf: nat)
    | Returning(buf: nat)
    | Linking(buf: nat)
    | Pushing(buf: nat)
    | Leaving

  /** A process and the buffers it may use and release. */
  datatype Proc = Proc(pc: Pc, held: set<nat>)

  datatype World = World(sizes: seq<nat>, pool: seq<nat>, mem: Memory, allocCount: nat,
                         lock: Option<Pid>, procs: map<Pid, Proc>)

  /** What an idle process may call; a busy one just goes on. */
  datatype Act = Get(size: int) | Rls(buf: nat) | Go

  function Of(w: World, p: Pid): Proc {
    if p in w.procs then w.procs[p] else Proc(Idle, {})
  }

  function At(mem: Memory, b: nat): Hdr {
    if b in mem then mem[b] else Hdr(0, 0, 0)
  }

  function HeadOf(w: World, i: nat): nat {
    if i < |w.pool| then w.pool[i] else 0
  }

  function SizeOf(w: World, i: nat): nat {
    if i < |w.sizes| then w.sizes[i] else 0
  }

  predicate HasLock(pc: Pc) {
    pc.Fitting? || pc.Probing? || pc.Taking? || pc.Taken? || pc.Linking? || pc.Pushing? || pc.Leaving?
  }

  predicate NeedsLock(pc: Pc, act: Act) {
    (pc.Idle? && act.Get?) || pc.Returning?
  }

  predicate Enabled(w: World, p: Pid, act: Act) {
    var q := Of(w, p);
    && (NeedsLock(q.pc, act) ==> w.lock == None)
    && (if q.pc.Idle? then act.Get? || (act.Rls? && act.buf in q.held) else act == Go)
  }

  function SetPc(w: World, p: Pid, pc: Pc): World {
    w.(procs := w.procs[p := Of(w, p).(pc := pc)])
  }

  function SetHdr(w: World, b: nat, h: Hdr): World {
    w.(mem := w.mem[b := h])
  }

  function Unlock(w: World): World {
    w.(lock := None)
  }

  function Next(w: World, p: Pid, act: Act): World
    requires Enabled(w, p, act)
  {
    var q := Of(w, p);
    match q.pc
    case Idle =>
      if act.Get? then
        SetPc(w.(lock := Some(p)), p, Fitting(act.size, 0))
      else if At(w.mem, act.buf).inUse != 1 then
        w
      else
        w.(procs := w.procs[p := Proc(Clearing(act.buf), q.held - {act.buf})])
    case Fitting(size, i) =>
      if i >= MAX_BFR_SIZES then SetPc(Unlock(w), p, Idle)
      else if SizeOf(w, i) >= AsULong(size) then SetPc(w, p, Probing(size, i))
      else SetPc(w, p, Fitting(size, i + 1))
    case Probing(size, i) =>
      if i >= MAX_BFR_SIZES || SizeOf(w, i) == 0 then SetPc(Unlock(w), p, Idle)
      else if HeadOf(w, i) == 0 then SetPc(w, p, Probing(size, i + 1))
      else if At(w.mem, HeadOf(w, i)).inUse != 0 then SetPc(w, p, Probing(size, i + 1))
      else SetPc(w, p, Taking(size, i, HeadOf(w, i), At(w.mem, HeadOf(w, i)).next))
    case Taking(size, i, b, next) =>
      SetPc(w.(pool := if i < |w.pool| then w.pool[i := next] else w.pool, allocCount := w.allocCount + 1), p,
            Taken(size, b))
    case Taken(size, b) =>
      SetPc(Unlock(w), p, Marking(size, b))
    case Marking(_, b) =>
      SetHdr(w.(procs := w.procs[p := Proc(Idle, q.held + {b})]), b, At(w.mem, b).(inUse := 1))
    case Clearing(b) =>
      SetPc(SetHdr(w, b, At(w.mem, b).(inUse := 0)), p, Returning(b))
    case Returning(b) =>
      SetPc(w.(lock := Some(p)), p, Linking(b))
    case Linking(b) =>
      SetPc(SetHdr(w, b, At(w.mem, b).(next := HeadOf(w, At(w.mem, b).sizeIndex))), p, Pushing(b))
    case Pushing(b) =>
      var i := At(w.mem, b).sizeIndex;
      SetPc(w.(pool := if i < |w.pool| then w.pool[i := b] else w.pool), p, Leaving)
    case Leaving =>
      SetPc(Unlock(w), p, Idle)
  }

  // ----- the invariant

  /** The buffer a process is moving between the free list and its hands. */
  function Transit(pc: Pc): set<nat> {
    match pc
    case Taken(_, b) => {b}
    case Marking(_, b) => {b}
    case Clearing(b) => {b}
    case Returning(b) => {b}
    case Linking(b) => {b}
    case Pushing(b) => {b}
    case _ => {}
  }

  function Owned(q: Proc): set<nat> {
    q.held + Transit(q.pc)
  }

  /** On the free list of its class, which is the only list it can be on. */
  predicate Listed(mem: Memory, free: seq<seq<nat>>, b: nat) {
    b in mem && mem[b].sizeIndex < |free| && b in free[mem[b].sizeIndex]
  }

  /** What holds of a buffer that process q owns. */
  predicate OwnOk(mem: Memory, free: seq<seq<nat>>, q: Proc, b: nat) {
    && b in mem && b > 0 && mem[b].sizeIndex < MAX_BFR_SIZES && !Listed(mem, free, b)
    && mem[b].inUse == if b in q.held || q.pc == Clearing(b) then 1 else 0
  }

  /** What a process remembers between two steps under the lock. */
  predicate PlaceOk(mem: Memory, pool: seq<nat>, pc: Pc) {
    match pc
    case Taking(_, i, b, next) => i < |pool| && pool[i] == b != 0 && next == At(mem, b).next
    case Pushing(b) => At(mem, b).sizeIndex < |pool| && At(mem, b).next == pool[At(mem, b).sizeIndex]
    case _ => true
  }

  /** What one process's place in its call says about memory. */
  ghost predicate ProcOk(w: World, free: seq<seq<nat>>, p: Pid, q: Proc) {
    && (HasLock(q.pc) <==> w.lock == Some(p))
    && q.held !! Transit(q.pc)
    && (forall b :: b in Owned(q) ==> OwnOk(w.mem, free, q, b))
    && PlaceOk(w.mem, w.pool, q.pc)
  }

  ghost predicate FreeOk(w: World, free: seq<seq<nat>>) {
    ListsOk(w.mem, w.pool, free) && forall b :: Listed(w.mem, free, b) ==> w.mem[b].inUse == 0
  }

  ghost predicate Inv(w: World, free: seq<seq<nat>>) {
    && FreeOk(w, free)
    && (forall p :: ProcOk(w, free, p, Of(w, p)))
    && (forall p, p' :: p != p' ==> Owned(Of(w, p)) !! Owned(Of(w, p')))
    && (forall b :: b in w.mem ==> Listed(w.mem, free, b) || exists p :: b in Owned(Of(w, p)))
  }

  lemma NowhereListed(mem: Memory, pool: seq<nat>, free: seq<seq<nat>>, b: nat)
    requires ListsOk(mem, pool, free) && !Listed(mem, free, b)
    ensures forall i :: 0 <= i < MAX_BFR_SIZES ==> b !in free[i]
  {
    forall i | 0 <= i < MAX_BFR_SIZES
      ensures b !in free[i]
    {
      assert ListOk(mem, pool[i], i, free[i]);
    }
  }

  lemma HeadListed(mem: Memory, pool: seq<nat>, free: seq<seq<nat>>, i: nat)
    requires ListsOk(mem, pool, free) && i < MAX_BFR_SIZES && pool[i] != 0
    ensures Listed(mem, free, pool[i]) && mem[pool[i]].sizeIndex == i && free[i] != [] && free[i][0] == pool[i]
  {
    assert ListOk(mem, pool[i], i, free[i]);
    assert free[i][0] in free[i];
  }

  // ----- a step of one process does not upset the others

  /** The lock is taken by p, given up by p, or left alone. */
  predicate LockStep(w: World, w': World, p: Pid) {
    w'.lock == w.lock || (w.lock == None && w'.lock == Some(p)) || (w.lock == Some(p) && w'.lock == None)
  }

  /** p changes only headers of buffers that are its own, and the list heads only under the lock. */
  ghost predicate Local(w: World, w': World, p: Pid, free: seq<seq<nat>>, free': seq<seq<nat>>) {
    && LockStep(w, w', p)
    && w'.mem.Keys == w.mem.Keys
    && (forall b :: b in w.mem ==> b in Owned(Of(w, p)) || w'.mem[b] == w.mem[b])
    && (forall b :: b in w.mem ==> w'.mem[b].sizeIndex == w.mem[b].sizeIndex)
    && (w'.pool == w.pool || HasLock(Of(w, p).pc))
    && (forall b :: Listed(w'.mem, free', b) ==> Listed(w.mem, free, b) || b in Owned(Of(w, p)))
    && (forall p2 :: p2 != p ==> Of(w', p2) == Of(w, p2))
  }

  lemma OtherPlaceOk(w: World, w': World, p: Pid, free: seq<seq<nat>>, free': seq<seq<nat>>, p2: Pid)
    requires Inv(w, free) && Local(w, w', p, free, free') && p2 != p
    ensures PlaceOk(w'.mem, w'.pool, Of(w, p2).pc)
  {
    var q := Of(w, p2);
    assert ProcOk(w, free, p2, q) && ProcOk(w, free, p, Of(w, p));
    if q.pc.Taking? {
      HeadListed(w.mem, w.pool, free, q.pc.index);
      assert q.pc.buf !in Owned(Of(w, p));
    } else if q.pc.Pushing? {
      assert q.pc.buf in Owned(q);
      assert Owned(Of(w, p)) !! Owned(q);
    }
  }

  lemma OtherOk(w: World, w': World, p: Pid, free: seq<seq<nat>>, free': seq<seq<nat>>, p2: Pid)
    requires Inv(w, free) && Local(w, w', p, free, free') && p2 != p
    ensures ProcOk(w', free', p2, Of(w', p2))
  {
    var q := Of(w, p2);
    assert ProcOk(w, free, p2, q) && ProcOk(w, free, p, Of(w, p));
    forall b | b in Owned(q)
      ensures OwnOk(w'.mem, free', q, b)
    {
      assert OwnOk(w.mem, free, q, b);
      assert Owned(Of(w, p)) !! Owned(q);
    }
    OtherPlaceOk(w, w', p, free, free', p2);
  }

  /** Putting the invariant together again after a step of p. */
  lemma Rebuild(w: World, w': World, p: Pid, free: seq<seq<nat>>, free': seq<seq<nat>>)
    requires Inv(w, free) && Local(w, w', p, free, free')
    requires FreeOk(w', free')
    requires ProcOk(w', free', p, Of(w', p))
    requires forall b :: b in Owned(Of(w', p)) ==> b in Owned(Of(w, p)) || Listed(w.mem, free, b)
    requires forall b :: b in Owned(Of(w, p)) || Listed(w.mem, free, b) ==>
             b in Owned(Of(w', p)) || Listed(w'.mem, free', b)
    ensures Inv(w', free')
  {
    forall p2
      ensures ProcOk(w', free', p2, Of(w', p2))
    {
      if p2 != p {
        OtherOk(w, w', p, free, free', p2);
      }
    }
    forall p1, p2 | p1 != p2
      ensures Owned(Of(w', p1)) !! Owned(Of(w', p2))
    {
      assert Owned(Of(w, p1)) !! Owned(Of(w, p2));
      assert ProcOk(w, free, p1, Of(w, p1)) && ProcOk(w, free, p2, Of(w, p2));
      assert forall b :: b in Owned(Of(w, p1)) ==> OwnOk(w.mem, free, Of(w, p1), b);
      assert forall b :: b in Owned(Of(w, p2)) ==> OwnOk(w.mem, free, Of(w, p2), b);
    }
    forall b | b in w'.mem
      ensures Listed(w'.mem, free', b) || exists q :: b in Owned(Of(w', q))
    {
      if !Listed(w.mem, free, b) {
        var q :| b in Owned(Of(w, q));
        assert b in Owned(Of(w', q)) || q == p;
      }
    }
  }

  /** A step that moves only p's place in its call, and the lock. */
  lemma PlaceStep(w: World, w': World, p: Pid, free: seq<seq<nat>>)
    requires Inv(w, free) && w'.mem == w.mem && w'.pool == w.pool && LockStep(w, w', p)
    requires forall p2 :: p2 != p ==> Of(w', p2) == Of(w, p2)
    requires var q, q' := Of(w, p), Of(w', p);
      && Owned(q') == Owned(q) && q'.held !! Transit(q'.pc)
      && (HasLock(q'.pc) <==> w'.lock == Some(p)) && PlaceOk(w.mem, w.pool, q'.pc)
      && forall b :: b in Owned(q) ==>
         ((b in q'.held || q'.pc == Clearing(b)) <==> (b in q.held || q.pc == Clearing(b)))
    ensures Inv(w', free)
  {
    var q, q' := Of(w, p), Of(w', p);
    assert ProcOk(w, free, p, q);
    forall b | b in Owned(q')
      ensures OwnOk(w'.mem, free, q', b)
    {
      assert OwnOk(w.mem, free, q, b);
    }
    Rebuild(w, w', p, free, free);
  }

  /** Writing the header of an owned buffer keeps the lists. */
  lemma OwnHeader(w: World, free: seq<seq<nat>>, b: nat, h: Hdr)
    requires FreeOk(w, free) && b in w.mem && !Listed(w.mem, free, b) && h.sizeIndex == w.mem[b].sizeIndex
    ensures FreeOk(SetHdr(w, b, h), free)
    ensures forall x :: Listed(SetHdr(w, b, h).mem, free, x) <==> Listed(w.mem, free, x)
  {
    var mem' := SetHdr(w, b, h).mem;
    NowhereListed(w.mem, w.pool, free, b);
    forall k | 0 <= k < MAX_BFR_SIZES
      ensures ListOk(mem', w.pool[k], k, free[k])
    {
      assert ListOk(w.mem, w.pool[k], k, free[k]);
      ListFrame(w.mem, mem', w.pool[k], k, free[k]);
    }
  }

  /** A step that writes the header of p's buffer in transit, and moves p's place. */
  lemma HeaderStep(w: World, w': World, p: Pid, free: seq<seq<nat>>, b: nat, h: Hdr)
    requires Inv(w, free) && b in Transit(Of(w, p).pc)
    requires w'.mem == w.mem[b := h] && w'.pool == w.pool && w'.lock == w.lock
    requires b in w.mem && h.sizeIndex == w.mem[b].sizeIndex
    requires forall p2 :: p2 != p ==> Of(w', p2) == Of(w, p2)
    requires var q, q' := Of(w, p), Of(w', p);
      && Owned(q') == Owned(q) && q'.held !! Transit(q'.pc)
      && (HasLock(q'.pc) <==> HasLock(q.pc)) && PlaceOk(w'.mem, w'.pool, q'.pc)
      && h.inUse == (if b in q'.held || q'.pc == Clearing(b) then 1 else 0)
      && forall x :: x in Owned(q) && x != b ==>
           ((x in q'.held || q'.pc == Clearing(x)) <==> (x in q.held || q.pc == Clearing(x)))
    ensures Inv(w', free)
  {
    var q, q' := Of(w, p), Of(w', p);
    assert ProcOk(w, free, p, q) && OwnOk(w.mem, free, q, b);
    OwnHeader(w, free, b, h);
    forall x | x in Owned(q')
      ensures OwnOk(w'.mem, free, q', x)
    {
      assert OwnOk(w.mem, free, q, x);
    }
    Rebuild(w, w', p, free, free);
  }

  lemma OwnHeaderMeans(w: World, p: Pid)
    requires Enabled(w, p, Go)
    requires var pc := Of(w, p).pc; pc.Marking? || pc.Clearing? || pc.Linking?
    ensures var w', q, b := Next(w, p, Go), Of(w, p), Of(w, p).pc.buf;
            var q' := Of(w', p);
            && w'.pool == w.pool && w'.lock == w.lock && b in w'.mem && w'.mem == w.mem[b := w'.mem[b]]
            && w'.mem[b].sizeIndex == At(w.mem, b).sizeIndex
            && w'.mem[b].inUse == (if q.pc.Marking? then 1 else if q.pc.Clearing? then 0 else At(w.mem, b).inUse)
            && (q.pc.Linking? ==> w'.mem[b].next == HeadOf(w, At(w.mem, b).sizeIndex))
            && q' == (if q.pc.Marking? then Proc(Idle, q.held + {b})
                      else Proc(if q.pc.Clearing? then Returning(b) else Pushing(b), q.held))
            && forall p2 :: p2 != p ==> Of(w', p2) == Of(w, p2)
  {
  }

  lemma OwnHeaderStep(w: World, p: Pid, free: seq<seq<nat>>)
    requires Inv(w, free)
    requires var pc := Of(w, p).pc; pc.Marking? || pc.Clearing? || pc.Linking?
    ensures Inv(Next(w, p, Go), free)
  {
    hide Next, Of, Inv, Listed;
    ProcOf(w, p, free);
    FreeOf(w, free);
    OwnHeaderMeans(w, p);
    var w', q := Next(w, p, Go), Of(w, p);
    var b := q.pc.buf;
    assert OwnOk(w.mem, free, q, b);
    HeaderStep(w, w', p, free, b, w'.mem[b]);
  }

  lemma PopMeans(w: World, p: Pid)
    requires Of(w, p).pc.Taking? && Enabled(w, p, Go)
    ensures var w', q := Next(w, p, Go), Of(w, p);
            && w'.sizes == w.sizes && w'.mem == w.mem && w'.lock == w.lock
            && w'.pool == (if q.pc.index < |w.pool| then w.pool[q.pc.index := q.pc.next] else w.pool)
            && Of(w', p) == Proc(Taken(q.pc.size, q.pc.buf), q.held)
            && forall p2 :: p2 != p ==> Of(w', p2) == Of(w, p2)
  {
  }

  lemma PoppedListed(mem: Memory, free: seq<seq<nat>>, i: nat, b: nat)
    requires i < |free| && free[i] != [] && free[i][0] == b && NoDuplicates(free[i])
    requires b in mem && mem[b].sizeIndex == i
    ensures forall x :: Listed(mem, free[i := free[i][1..]], x) <==> Listed(mem, free, x) && x != b
  {
    assert free[i] == [b] + free[i][1..];
  }

  lemma TakingProc(w: World, p: Pid, free: seq<seq<nat>>, free': seq<seq<nat>>, q': Proc)
    requires ProcOk(w, free, p, Of(w, p)) && Of(w, p).pc.Taking?
    requires var b := Of(w, p).pc.buf;
             && b in w.mem && b > 0 && w.mem[b].sizeIndex < MAX_BFR_SIZES && w.mem[b].inUse == 0
             && Listed(w.mem, free, b) && forall x :: Listed(w.mem, free', x) <==> Listed(w.mem, free, x) && x != b
    requires q' == Proc(Taken(Of(w, p).pc.size, Of(w, p).pc.buf), Of(w, p).held)
    ensures Owned(q') == Owned(Of(w, p)) + {Of(w, p).pc.buf}
    ensures q'.held !! Transit(q'.pc) && forall x :: x in Owned(q') ==> OwnOk(w.mem, free', q', x)
  {
    hide Listed, Of;
    var q := Of(w, p);
    assert forall x :: x in q.held ==> OwnOk(w.mem, free, q, x);
    forall x | x in Owned(q')
      ensures OwnOk(w.mem, free', q', x)
    {
      assert x == q.pc.buf || OwnOk(w.mem, free, q, x);
    }
  }

  /** The head of a list goes to one process. */
  lemma PopStep(w: World, p: Pid, free: seq<seq<nat>>) returns (free': seq<seq<nat>>)
    requires Inv(w, free) && Of(w, p).pc.Taking?
    ensures Inv(Next(w, p, Go), free')
    ensures var i, b := Of(w, p).pc.index, Of(w, p).pc.buf;
            && i < |free| && free[i] != [] && free[i][0] == b && free' == free[i := free[i][1..]]
            && Owned(Of(Next(w, p, Go), p)) == Owned(Of(w, p)) + {b}
  {
    hide Next, Of, Inv, Listed;
    ProcOf(w, p, free);
    FreeOf(w, free);
    PopMeans(w, p);
    var w', q := Next(w, p, Go), Of(w, p);
    var i, b := q.pc.index, q.pc.buf;
    HeadListed(w.mem, w.pool, free, i);
    HeadInMemory(w.mem, w.pool, free, i);
    PopKeepsLists(w.mem, w.pool, free, i);
    free' := free[i := free[i][1..]];
    PoppedListed(w.mem, free, i, b);
    TakingProc(w, p, free, free', Of(w', p));
    Rebuild(w, w', p, free, free');
  }

  lemma HeadInMemory(mem: Memory, pool: seq<nat>, free: seq<seq<nat>>, i: nat)
    requires ListsOk(mem, pool, free) && i < MAX_BFR_SIZES && pool[i] != 0
    ensures pool[i] in mem && NoDuplicates(free[i])
  {
    assert ListOk(mem, pool[i], i, free[i]);
    HeadListed(mem, pool, free, i);
  }

  lemma PushMeans(w: World, p: Pid)
    requires Of(w, p).pc.Pushing? && Enabled(w, p, Go)
    ensures var w', q := Next(w, p, Go), Of(w, p);
            var i := At(w.mem, q.pc.buf).sizeIndex;
            && w'.sizes == w.sizes && w'.mem == w.mem && w'.lock == w.lock
            && w'.pool == (if i < |w.pool| then w.pool[i := q.pc.buf] else w.pool)
            && Of(w', p) == Proc(Leaving, q.held)
            && forall p2 :: p2 != p ==> Of(w', p2) == Of(w, p2)
  {
  }

  lemma PushedLists(mem: Memory, pool: seq<nat>, free: seq<seq<nat>>, b: nat)
    requires ListsOk(mem, pool, free) && b in mem && b > 0 && mem[b].sizeIndex < MAX_BFR_SIZES
             && mem[b].next == pool[mem[b].sizeIndex]
    requires forall k :: 0 <= k < MAX_BFR_SIZES ==> b !in free[k]
    ensures var i := mem[b].sizeIndex; ListsOk(mem, pool[i := b], free[i := [b] + free[i]])
  {
    PushKeepsLists(mem, pool, free, b);
    assert mem[b := mem[b].(next := pool[mem[b].sizeIndex])] == mem;
  }

  lemma PushedListed(mem: Memory, free: seq<seq<nat>>, i: nat, b: nat)
    requires b in mem && mem[b].sizeIndex == i < |free|
    ensures forall x :: Listed(mem, free[i := [b] + free[i]], x) <==> Listed(mem, free, x) || x == b
  {
    var free' := free[i := [b] + free[i]];
    forall x
      ensures Listed(mem, free', x) <==> Listed(mem, free, x) || x == b
    {
      assert x in [b] + free[i] <==> x == b || x in free[i];
      if x in mem && mem[x].sizeIndex != i && mem[x].sizeIndex < |free| {
        assert free'[mem[x].sizeIndex] == free[mem[x].sizeIndex];
      }
    }
  }

  lemma FreeOf(w: World, free: seq<seq<nat>>)
    requires Inv(w, free)
    ensures FreeOk(w, free) && ListsOk(w.mem, w.pool, free)
  {
  }

  /** The process that has pushed b has let go of it. */
  lemma PushedProc(w: World, p: Pid, free: seq<seq<nat>>, free': seq<seq<nat>>, q': Proc)
    requires ProcOk(w, free, p, Of(w, p)) && Of(w, p).pc.Pushing?
    requires forall x :: Listed(w.mem, free', x) <==> Listed(w.mem, free, x) || x == Of(w, p).pc.buf
    requires q' == Proc(Leaving, Of(w, p).held)
    ensures Owned(q') == Owned(Of(w, p)) - {Of(w, p).pc.buf}
    ensures forall x :: x in Owned(q') ==> OwnOk(w.mem, free', q', x)
  {
    hide Listed, Of;
    var q := Of(w, p);
    forall x | x in Owned(q')
      ensures OwnOk(w.mem, free', q', x)
    {
      assert OwnOk(w.mem, free, q, x);
    }
  }

  /** A buffer in transit becomes the head of its class's list. */
  lemma PushStep(w: World, p: Pid, free: seq<seq<nat>>) returns (free': seq<seq<nat>>)
    requires Inv(w, free) && Of(w, p).pc.Pushing?
    ensures Inv(Next(w, p, Go), free')
    ensures var b := Of(w, p).pc.buf;
            && b in w.mem && w.mem[b].sizeIndex < |free|
            && free' == free[w.mem[b].sizeIndex := [b] + free[w.mem[b].sizeIndex]]
            && b in Owned(Of(w, p)) && Owned(Of(Next(w, p, Go), p)) == Owned(Of(w, p)) - {b}
  {
    hide Next, Of, Inv, ListsOk, Listed;
    ProcOf(w, p, free);
    FreeOf(w, free);
    PushMeans(w, p);
    var w', q := Next(w, p, Go), Of(w, p);
    var b := q.pc.buf;
    assert OwnOk(w.mem, free, q, b);
    NowhereListed(w.mem, w.pool, free, b);
    var i := w.mem[b].sizeIndex;
    PushedLists(w.mem, w.pool, free, b);
    free' := free[i := [b] + free[i]];
    PushedListed(w.mem, free, i, b);
    PushedProc(w, p, free, free', Of(w', p));
    Rebuild(w, w', p, free, free');
  }

  lemma IdleStep(w: World, p: Pid, act: Act, free: seq<seq<nat>>)
    requires Inv(w, free) && Enabled(w, p, act) && Of(w, p).pc.Idle?
    ensures Inv(Next(w, p, act), free)
  {
    assert ProcOk(w, free, p, Of(w, p));
    if Next(w, p, act) != w {
      PlaceStep(w, Next(w, p, act), p, free);
    }
  }

  lemma ProcOf(w: World, p: Pid, free: seq<seq<nat>>)
    requires Inv(w, free)
    ensures ProcOk(w, free, p, Of(w, p))
  {
  }

  lemma SearchMeans(w: World, p: Pid)
    requires Enabled(w, p, Go)
    requires var pc := Of(w, p).pc; pc.Fitting? || pc.Probing?
    ensures var w', q := Next(w, p, Go), Of(w, p);
            var q' := Of(w', p);
            && w'.mem == w.mem && w'.pool == w.pool
            && w'.lock == (if q'.pc.Idle? then None else w.lock)
            && q'.held == q.held && PlaceOk(w.mem, w.pool, q'.pc)
            && (q'.pc.Idle? || q'.pc.Fitting? || q'.pc.Probing? || q'.pc.Taking?)
            && forall p2 :: p2 != p ==> Of(w', p2) == Of(w, p2)
  {
  }

  lemma SearchStep(w: World, p: Pid, free: seq<seq<nat>>)
    requires Inv(w, free)
    requires var pc := Of(w, p).pc; pc.Fitting? || pc.Probing?
    ensures Inv(Next(w, p, Go), free)
  {
    hide Inv, Next, Of, PlaceOk;
    ProcOf(w, p, free);
    SearchMeans(w, p);
    PlaceStep(w, Next(w, p, Go), p, free);
  }

  lemma LockingStep(w: World, p: Pid, free: seq<seq<nat>>)
    requires Inv(w, free) && Enabled(w, p, Go)
    requires var pc := Of(w, p).pc; pc.Taken? || pc.Returning? || pc.Leaving?
    ensures Inv(Next(w, p, Go), free)
  {
    assert ProcOk(w, free, p, Of(w, p));
    PlaceStep(w, Next(w, p, Go), p, free);
  }

  /** Every step of every process keeps the invariant. */
  lemma NextKeepsInv(w: World, p: Pid, act: Act, free: seq<seq<nat>>) returns (free': seq<seq<nat>>)
    requires Inv(w, free) && Enabled(w, p, act)
    ensures Inv(Next(w, p, act), free')
    ensures match Of(w, p).pc
            case Taking(_, i, b, _) =>
              i < |free| && free[i] != [] && free[i][0] == b && free' == free[i := free[i][1..]]
            case Pushing(b) =>
              && b in w.mem && w.mem[b].sizeIndex < |free|
              && free' == free[w.mem[b].sizeIndex := [b] + free[w.mem[b].sizeIndex]]
            case _ => free' == free
  {
    free' := free;
    match Of(w, p).pc
    case Taking(_, _, _, _) => free' := PopStep(w, p, free);
    case Pushing(_) => free' := PushStep(w, p, free);
    case Marking(_, _) => OwnHeaderStep(w, p, free);
    case Clearing(_) => OwnHeaderStep(w, p, free);
    case Linking(_) => OwnHeaderStep(w, p, free);
    case Idle => IdleStep(w, p, act, free);
    case Fitting(_, _) => SearchStep(w, p, free);
    case Probing(_, _) => SearchStep(w, p, free);
    case _ => LockingStep(w, p, free);
  }

  /** No step makes or loses a buffer, or moves one to another class. */
  lemma NextKeepsClasses(w: World, p: Pid, act: Act, free: seq<seq<nat>>)
    requires Inv(w, free) && Enabled(w, p, act)
    ensures var w' := Next(w, p, act);
            w'.mem.Keys == w.mem.Keys && forall b :: b in w.mem ==> w'.mem[b].sizeIndex == w.mem[b].sizeIndex
  {
    hide Inv, ListsOk, Listed;
    ProcOf(w, p, free);
    var q := Of(w, p);
    if q.pc.Marking? || q.pc.Clearing? || q.pc.Linking? {
      assert OwnOk(w.mem, free, q, q.pc.buf);
    } else if q.pc.Taking? {
      FreeOf(w, free);
    }
  }

  // ----- whole runs

  /** The buffers are those of the layout, each of the class it was laid out for. */
  ghost predicate LaidOut(mem: Memory, l: Layout) {
    && Proper(l)
    && (forall i, j :: IsBuffer(l, i, j) ==> Position(l, i, j) in mem && mem[Position(l, i, j)].sizeIndex == i)
    && (forall b :: b in mem ==> exists i, j :: IsBuffer(l, i, j) && b == Position(l, i, j))
  }

  /** Right after initialization: every buffer on its list, nobody in a call. */
  ghost predicate IsStart(w: World, l: Layout) {
    && Proper(l) && |w.pool| == |w.sizes| == MAX_BFR_SIZES && w.lock == None && w.procs == map[]
    && (forall i :: 0 <= i < MAX_BFR_SIZES ==> w.sizes[i] == if i < |l.sizes| then l.sizes[i] else 0)
    && (forall i, j :: 0 <= i < j < |l.sizes| ==> l.sizes[i] <= l.sizes[j]) && w.allocCount == 0
    && (forall i :: 0 <= i < MAX_BFR_SIZES ==> w.pool[i] == if i < |l.sizes| then Position(l, i, 0) else 0)
    && (forall i, j :: IsBuffer(l, i, j) ==> Written(w.mem, l, i, j))
    && (forall b :: b in w.mem ==> exists i, j :: IsBuffer(l, i, j) && b == Position(l, i, j))
  }

  lemma StartInv(w: World, l: Layout)
    requires IsStart(w, l)
    ensures Inv(w, InitialFree(l)) && LaidOut(w.mem, l)
  {
    hide IsStart, FreeOk, ListsOk;
    StartPlaces(w, l);
    StartLists(w, l);
  }

  lemma StartLists(w: World, l: Layout)
    requires IsStart(w, l)
    ensures FreeOk(w, InitialFree(l)) && forall b :: b in w.mem ==> Listed(w.mem, InitialFree(l), b)
  {
    hide InitialFree, ListOk;
    InitialPool(w.mem, w.pool, l);
  }

  lemma StartPlaces(w: World, l: Layout)
    requires IsStart(w, l)
    ensures LaidOut(w.mem, l) && w.lock == None && forall p :: Of(w, p) == Proc(Idle, {})
  {
    forall i, j | IsBuffer(l, i, j)
      ensures Position(l, i, j) in w.mem && w.mem[Position(l, i, j)].sizeIndex == i
    {
      assert Written(w.mem, l, i, j);
    }
  }

  datatype Move = Move(p: Pid, act: Act)

  ghost predicate Run(worlds: seq<World>, moves: seq<Move>, l: Layout) {
    && |worlds| == |moves| + 1 && IsStart(worlds[0], l)
    && forall i :: 0 <= i < |moves| ==>
         Enabled(worlds[i], moves[i].p, moves[i].act) && worlds[i + 1] == Next(worlds[i], moves[i].p, moves[i].act)
  }

  lemma {:induction false} RunInv(worlds: seq<World>, moves: seq<Move>, l: Layout, i: nat) returns (free: seq<seq<nat>>)
    requires Run(worlds, moves, l) && i < |worlds|
    ensures Inv(worlds[i], free) && LaidOut(worlds[i].mem, l)
    decreases i
  {
    hide Inv, LaidOut, Next;
    if i == 0 {
      StartInv(worlds[0], l);
      free := InitialFree(l);
    } else {
      free := RunInv(worlds, moves, l, i - 1);
      var w, m := worlds[i - 1], moves[i - 1];
      NextKeepsClasses(w, m.p, m.act, free);
      SameClasses(w.mem, worlds[i].mem, l);
      free := NextKeepsInv(w, m.p, m.act, free);
    }
  }

  lemma SameClasses(mem: Memory, mem': Memory, l: Layout)
    requires LaidOut(mem, l)
    requires mem'.Keys == mem.Keys && forall b :: b in mem ==> mem'[b].sizeIndex == mem[b].sizeIndex
    ensures LaidOut(mem', l)
  {
  }

  /** Every buffer is in exactly one place: on the list of its class, or with one process. */
  ghost predicate Partitioned(w: World, free: seq<seq<nat>>) {
    forall b :: b in w.mem ==>
      if Listed(w.mem, free, b) then forall p :: b !in Owned(Of(w, p))
      else exists p :: b in Owned(Of(w, p)) && forall p2 :: b in Owned(Of(w, p2)) ==> p2 == p
  }

  /** In every state of every run: the buffers are those laid out, each of its class; they are partitioned, the lists
      are sound, no buffer is held twice or while it is free, a buffer that is held is marked in use, and a list's
      head is not. */
  lemma PoolIsSafe(worlds: seq<World>, moves: seq<Move>, l: Layout, i: nat) returns (free: seq<seq<nat>>)
    requires Run(worlds, moves, l) && i < |worlds|
    ensures var w := worlds[i];
      && LaidOut(w.mem, l) && ListsOk(w.mem, w.pool, free) && Partitioned(w, free)
      && (forall p, p2, b :: b in Of(w, p).held && b in Of(w, p2).held ==> p == p2)
      && (forall p, b :: b in Of(w, p).held ==> b in w.mem && w.mem[b].inUse == 1 && !Listed(w.mem, free, b))
      && (forall k :: 0 <= k < MAX_BFR_SIZES && w.pool[k] != 0 ==> At(w.mem, w.pool[k]).inUse == 0)
  {
    free := RunInv(worlds, moves, l, i);
    var w := worlds[i];
    forall p, b | b in Owned(Of(w, p))
      ensures OwnOk(w.mem, free, Of(w, p), b)
      ensures forall p2 :: b in Owned(Of(w, p2)) ==> p2 == p
    {
      assert ProcOk(w, free, p, Of(w, p));
      forall p2 | b in Owned(Of(w, p2)) ensures p2 == p {
        assert p2 != p ==> Owned(Of(w, p2)) !! Owned(Of(w, p));
      }
    }
    forall p, b | b in Of(w, p).held
      ensures b in w.mem && w.mem[b].inUse == 1 && !Listed(w.mem, free, b)
    {
      assert b in Owned(Of(w, p));
    }
    forall k | 0 <= k < MAX_BFR_SIZES && w.pool[k] != 0
      ensures At(w.mem, w.pool[k]).inUse == 0
    {
      HeadListed(w.mem, w.pool, free, k);
    }
  }

  /** So neither refusal is ever taken: a free head is not found in use, and a release is not refused. */
  lemma RefusalsUnreachable(worlds: seq<World>, moves: seq<Move>, l: Layout, i: nat)
    requires Run(worlds, moves, l) && i < |moves|
    ensures var w, p, act := worlds[i], moves[i].p, moves[i].act;
      && (Of(w, p).pc.Probing? && Of(w, p).pc.index < MAX_BFR_SIZES && HeadOf(w, Of(w, p).pc.index) != 0 ==>
            At(w.mem, HeadOf(w, Of(w, p).pc.index)).inUse == 0)
      && (act.Rls? ==> Of(worlds[i + 1], p).pc == Clearing(act.buf))
  {
    var free := PoolIsSafe(worlds, moves, l, i);
    assert Enabled(worlds[i], moves[i].p, moves[i].act);
  }
}
