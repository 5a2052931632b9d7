/** What a process gets for the size it asks for, over all interleavings: the request is served from the first class
    that is large enough and not empty at the moment the list head is moved, and refused only if there is none. */
module BufferRequests {
  import opened Options
  import opened BufferLayout
  import opened BufferPool
  import opened BufferSteps

  /** Class i is in use, holds the size, which is compared as an unsigned 64-bit number, and has a free buffer. */
  predicate CanServe(sizes: seq<nat>, free: seq<seq<nat>>, i: nat, size: int) {
    i < |sizes| && i < |free| && sizes[i] > 0 && sizes[i] >= size % 0x1_0000_0000_0000_0000 && free[i] != []
  }

  /** A single caller's get goes by the same classes. */
  lemma ServesIs(sizes: seq<nat>, free: seq<seq<nat>>, i: nat, size: int)
    requires |sizes| == |free| == MAX_BFR_SIZES
    ensures Serves(sizes, free, i, size) <==> CanServe(sizes, free, i, size)
  {
    Unsigned(size);
  }

  /** Ten classes: those in use come first, in ascending sizes. */
  ghost predicate Directory(sizes: seq<nat>) {
    |sizes| == 10 && forall i, j :: 0 <= i < j < 10 && sizes[j] > 0 ==> 0 < sizes[i] <= sizes[j]
  }

  /** What a process knows in the course of a get. */
  ghost predicate SearchOk(sizes: seq<nat>, mem: Memory, free: seq<seq<nat>>, pc: Pc) {
    match pc
    case Fitting(size, i) =>
      i <= |sizes| && forall k :: 0 <= k < i ==> sizes[k] < size % 0x1_0000_0000_0000_0000
    case Probing(size, i) =>
      && i <= |sizes| && (forall k :: 0 <= k < i ==> !CanServe(sizes, free, k, size))
      && (i < |sizes| && sizes[i] > 0 ==> sizes[i] >= size % 0x1_0000_0000_0000_0000)
    case Taking(size, i, b, _) =>
      CanServe(sizes, free, i, size) && b == free[i][0] && forall k :: 0 <= k < i ==> !CanServe(sizes, free, k, size)
    case Taken(size, b) => LargeEnoughFor(sizes, mem, b, size)
    case Marking(size, b) => LargeEnoughFor(sizes, mem, b, size)
    case _ => true
  }

  predicate LargeEnoughFor(sizes: seq<nat>, mem: Memory, b: nat, size: int) {
    b in mem && mem[b].sizeIndex < |sizes| && sizes[mem[b].sizeIndex] >= size % 0x1_0000_0000_0000_0000
  }

  ghost predicate Searches(w: World, free: seq<seq<nat>>) {
    forall p :: SearchOk(w.sizes, w.mem, free, Of(w, p).pc)
  }

  ghost predicate Full(w: World, free: seq<seq<nat>>) {
    Inv(w, free) && Directory(w.sizes) && Searches(w, free)
  }

  // ----- one step

  lemma NextSizes(w: World, p: Pid, act: Act)
    requires Enabled(w, p, act)
    ensures Next(w, p, act).sizes == w.sizes
    ensures Next(w, p, act).allocCount == w.allocCount + (if Of(w, p).pc.Taking? then 1 else 0)
    ensures forall p2 :: p2 != p ==> Of(Next(w, p, act), p2) == Of(w, p2)
  {
  }

  lemma HeadIs(w: World, free: seq<seq<nat>>, i: nat)
    requires Inv(w, free)
    ensures |free| == 10 && (i < 10 ==> (HeadOf(w, i) == 0 <==> free[i] == []))
    ensures i < 10 && free[i] != [] ==> HeadOf(w, i) == free[i][0] && At(w.mem, HeadOf(w, i)).inUse == 0
  {
    FreeOf(w, free);
    if i < 10 {
      assert ListOk(w.mem, w.pool[i], i, free[i]);
      if w.pool[i] != 0 {
        HeadListed(w.mem, w.pool, free, i);
      }
    }
  }

  /** The search of the process that steps. */
  lemma OwnSearch(w: World, p: Pid, free: seq<seq<nat>>)
    requires Full(w, free) && Enabled(w, p, Go)
    requires var pc := Of(w, p).pc; pc.Fitting? || pc.Probing?
    ensures SearchOk(w.sizes, w.mem, free, Of(Next(w, p, Go), p).pc)
    ensures Of(Next(w, p, Go), p).pc.Idle? ==> forall k :: !CanServe(w.sizes, free, k, Of(w, p).pc.size)
  {
    hide Inv, ListsOk, Listed;
    var pc, i := Of(w, p).pc, Of(w, p).pc.index;
    assert SearchOk(w.sizes, w.mem, free, pc);
    FreeOf(w, free);
    HeadIs(w, free, i);
    Unsigned(pc.size);
  }

  lemma Unsigned(size: int)
    ensures AsULong(size) == size % 0x1_0000_0000_0000_0000
  {
  }

  lemma OwnTaking(w: World, p: Pid, free: seq<seq<nat>>)
    requires Full(w, free) && Enabled(w, p, Go)
    requires var pc := Of(w, p).pc; pc.Taking? || pc.Taken? || pc.Marking?
    ensures SearchOk(w.sizes, Next(w, p, Go).mem, free, Of(Next(w, p, Go), p).pc)
    ensures var q := Of(Next(w, p, Go), p); q.pc.Taken? || q.pc.Marking? || q.pc.Idle?
  {
    var pc := Of(w, p).pc;
    assert SearchOk(w.sizes, w.mem, free, pc);
    if pc.Taking? {
      FreeOf(w, free);
      HeadIs(w, free, pc.index);
      HeadListed(w.mem, w.pool, free, pc.index);
    }
  }

  /** Two processes do not move list heads at the same time. */
  lemma LockExcludes(w: World, free: seq<seq<nat>>, p: Pid, p2: Pid)
    requires Inv(w, free) && p != p2 && HasLock(Of(w, p).pc)
    ensures !HasLock(Of(w, p2).pc)
  {
    ProcOf(w, p, free);
    ProcOf(w, p2, free);
  }

  lemma OthersSearch(w: World, p: Pid, act: Act, free: seq<seq<nat>>, free': seq<seq<nat>>, p2: Pid)
    requires Full(w, free) && Enabled(w, p, act) && p2 != p
    requires free' == free || HasLock(Of(w, p).pc)
    ensures SearchOk(w.sizes, Next(w, p, act).mem, free', Of(w, p2).pc)
  {
    hide Inv, Next, CanServe;
    var w', pc := Next(w, p, act), Of(w, p2).pc;
    assert SearchOk(w.sizes, w.mem, free, pc);
    NextKeepsClasses(w, p, act, free);
    if free' != free {
      LockExcludes(w, free, p, p2);
    }
  }

  lemma IdleSearch(w: World, p: Pid, act: Act, free: seq<seq<nat>>)
    requires Enabled(w, p, act)
    requires var pc := Of(w, p).pc;
             !(pc.Fitting? || pc.Probing? || pc.Taking? || pc.Taken? || pc.Marking?)
    ensures SearchOk(w.sizes, Next(w, p, act).mem, free, Of(Next(w, p, act), p).pc)
  {
  }

  /** Every step of every process keeps what each knows of its search. */
  lemma NextSearches(w: World, p: Pid, act: Act, free: seq<seq<nat>>) returns (free': seq<seq<nat>>)
    requires Full(w, free) && Enabled(w, p, act)
    ensures Full(Next(w, p, act), free')
  {
    hide Inv, Next, SearchOk, Enabled;
    free' := NextKeepsInv(w, p, act, free);
    NextSizes(w, p, act);
    BusyGoes(w, p, act);
    var w', pc := Next(w, p, act), Of(w, p).pc;
    if pc.Fitting? || pc.Probing? {
      OwnSearch(w, p, free);
      SearchMeans(w, p);
    } else if pc.Taking? || pc.Taken? || pc.Marking? {
      OwnTaking(w, p, free);
      AnyFree(w', free, free', p);
    } else {
      IdleSearch(w, p, act, free');
    }
    forall p2
      ensures SearchOk(w'.sizes, w'.mem, free', Of(w', p2).pc)
    {
      if p2 != p {
        OthersSearch(w, p, act, free, free', p2);
      }
    }
  }

  lemma BusyGoes(w: World, p: Pid, act: Act)
    requires Enabled(w, p, act)
    ensures !Of(w, p).pc.Idle? ==> act == Go
  {
  }

  lemma AnyFree(w: World, free: seq<seq<nat>>, free': seq<seq<nat>>, p: Pid)
    requires SearchOk(w.sizes, w.mem, free, Of(w, p).pc)
    requires var q := Of(w, p); q.pc.Taken? || q.pc.Marking? || q.pc.Idle?
    ensures SearchOk(w.sizes, w.mem, free', Of(w, p).pc)
  {
  }

  // ----- whole runs

  lemma StartFull(w: World, l: Layout)
    requires IsStart(w, l)
    ensures Full(w, InitialFree(l))
  {
    hide Inv, InitialFree;
    StartInv(w, l);
    StartPlaces(w, l);
    assert forall p :: Of(w, p).pc == Idle;
  }

  lemma {:induction false} RunFull(worlds: seq<World>, moves: seq<Move>, l: Layout, i: nat)
    returns (free: seq<seq<nat>>)
    requires Run(worlds, moves, l) && i < |worlds|
    ensures Full(worlds[i], free) && worlds[i].sizes == worlds[0].sizes
    decreases i
  {
    hide Full, Next;
    if i == 0 {
      StartFull(worlds[0], l);
      free := InitialFree(l);
    } else {
      free := RunFull(worlds, moves, l, i - 1);
      var w, m := worlds[i - 1], moves[i - 1];
      NextSizes(w, m.p, m.act);
      free := NextSearches(w, m.p, m.act, free);
    }
  }

  /** The size a process in the course of a get has asked for. */
  function Wanted(pc: Pc): Option<int> {
    match pc
    case Fitting(size, _) => Some(size)
    case Probing(size, _) => Some(size)
    case Taking(size, _, _, _) => Some(size)
    case Taken(size, _) => Some(size)
    case Marking(size, _) => Some(size)
    case _ => None
  }

  /** The call that process p is in at state i is the get of this size that it began at move j. */
  ghost predicate Began(worlds: seq<World>, moves: seq<Move>, i: nat, p: Pid, size: int, j: nat) {
    && j < i <= |moves| && |worlds| == |moves| + 1
    && moves[j] == Move(p, Get(size)) && Of(worlds[j], p).pc.Idle?
    && forall k :: j < k < i && moves[k].p == p ==> moves[k].act == Go && !Of(worlds[k], p).pc.Idle?
  }

  lemma {:induction false} Asked(worlds: seq<World>, moves: seq<Move>, l: Layout, i: nat, p: Pid) returns (j: nat)
    requires Run(worlds, moves, l) && i < |worlds| && Wanted(Of(worlds[i], p).pc).Some?
    ensures Began(worlds, moves, i, p, Wanted(Of(worlds[i], p).pc).value, j)
    decreases i
  {
    hide Next;
    j := 0;
    if i > 0 {
      var w, m := worlds[i - 1], moves[i - 1];
      NextSizes(w, m.p, m.act);
      if m.p == p {
        NextWanted(w, p, m.act);
      }
      if m.p == p && Of(w, p).pc.Idle? {
        j := i - 1;
      } else {
        j := Asked(worlds, moves, l, i - 1, p);
        if m.p == p {
          BusyGoes(w, p, m.act);
        }
      }
    }
  }

  lemma NextWanted(w: World, p: Pid, act: Act)
    requires Enabled(w, p, act) && Wanted(Of(Next(w, p, act), p).pc).Some?
    ensures if Of(w, p).pc.Idle? then act == Get(Wanted(Of(Next(w, p, act), p).pc).value)
            else Wanted(Of(w, p).pc) == Wanted(Of(Next(w, p, act), p).pc)
  {
  }

  /** In every run, what a step of a get decides is right for the size the process asked for when it called: a buffer
      taken is the first of the first class that can serve it, a buffer handed out is of a class that holds it, and
      none is given only when no class can serve it. */
  lemma ServedAsAsked(worlds: seq<World>, moves: seq<Move>, l: Layout, i: nat)
    returns (free: seq<seq<nat>>, size: int, j: nat)
    requires Run(worlds, moves, l) && i < |moves| && Wanted(Of(worlds[i], moves[i].p).pc).Some?
    ensures Began(worlds, moves, i, moves[i].p, size, j)
    ensures i + 1 < |worlds| && Directory(worlds[i].sizes) && ListsOk(worlds[i].mem, worlds[i].pool, free)
    ensures var w, q, q' := worlds[i], Of(worlds[i], moves[i].p), Of(worlds[i + 1], moves[i].p);
      && (q.pc.Taking? ==> exists c: nat ::
            && CanServe(w.sizes, free, c, size) && (forall k :: 0 <= k < c ==> !CanServe(w.sizes, free, k, size))
            && q'.pc == Taken(size, free[c][0]))
      && (q.pc.Marking? ==> exists b ::
            && q' == Proc(Idle, q.held + {b}) && b in w.mem && w.mem[b].sizeIndex < 10
            && w.sizes[w.mem[b].sizeIndex] >= size % 0x1_0000_0000_0000_0000)
      && (q'.pc.Idle? && q'.held == q.held ==> forall k :: !CanServe(w.sizes, free, k, size))
  {
    var w, p := worlds[i], moves[i].p;
    free := RunFull(worlds, moves, l, i);
    j := Asked(worlds, moves, l, i, p);
    size := Wanted(Of(w, p).pc).value;
    Decided(w, p, free);
  }

  lemma Decided(w: World, p: Pid, free: seq<seq<nat>>)
    requires Full(w, free) && Enabled(w, p, Go) && Wanted(Of(w, p).pc).Some?
    ensures ListsOk(w.mem, w.pool, free)
    ensures var size, q, q' := Wanted(Of(w, p).pc).value, Of(w, p), Of(Next(w, p, Go), p);
      && (q.pc.Taking? ==> exists c: nat ::
            && CanServe(w.sizes, free, c, size) && (forall k :: 0 <= k < c ==> !CanServe(w.sizes, free, k, size))
            && q'.pc == Taken(size, free[c][0]))
      && (q.pc.Marking? ==> exists b ::
            && q' == Proc(Idle, q.held + {b}) && b in w.mem && w.mem[b].sizeIndex < 10
            && w.sizes[w.mem[b].sizeIndex] >= size % 0x1_0000_0000_0000_0000)
      && (q'.pc.Idle? && q'.held == q.held ==> forall k :: !CanServe(w.sizes, free, k, size))
  {
    hide Inv, CanServe;
    var pc := Of(w, p).pc;
    FreeOf(w, free);
    ProcOf(w, p, free);
    assert SearchOk(w.sizes, w.mem, free, pc);
    if pc.Fitting? || pc.Probing? {
      OwnSearch(w, p, free);
    }
  }

  // ----- calls end, and somebody can always go on

  /** An upper bound of the steps a process still takes in its call. */
  function StepsLeft(pc: Pc): int {
    match pc
    case Idle => 0
    case Fitting(_, i) => 30 - i
    case Probing(_, i) => 19 - i
    case Taking(_, _, _, _) => 3
    case Taken(_, _) => 2
    case Marking(_, _) => 1
    case Clearing(_) => 5
    case Returning(_) => 4
    case Linking(_) => 3
    case Pushing(_) => 2
    case Leaving => 1
  }

  /** Every step a process takes in a call brings the call nearer to its end, which is at most 30 steps away. */
  lemma CallEnds(worlds: seq<World>, moves: seq<Move>, l: Layout, i: nat)
    requires Run(worlds, moves, l) && i < |moves|
    ensures i + 1 < |worlds|
    ensures var pc, pc' := Of(worlds[i], moves[i].p).pc, Of(worlds[i + 1], moves[i].p).pc;
      && 0 <= StepsLeft(pc') <= 30 && (StepsLeft(pc) == 0 <==> pc.Idle?)
      && (!pc.Idle? ==> StepsLeft(pc') < StepsLeft(pc))
  {
    hide Inv;
    var free := RunFull(worlds, moves, l, i);
    assert SearchOk(worlds[i].sizes, worlds[i].mem, free, Of(worlds[i], moves[i].p).pc);
    var free' := RunFull(worlds, moves, l, i + 1);
    assert SearchOk(worlds[i + 1].sizes, worlds[i + 1].mem, free', Of(worlds[i + 1], moves[i].p).pc);
  }

  /** A process is kept waiting by the lock alone, and whoever has the lock can go on. */
  lemma NeverStuck(worlds: seq<World>, moves: seq<Move>, l: Layout, i: nat, p: Pid)
    requires Run(worlds, moves, l) && i < |worlds| && !Of(worlds[i], p).pc.Idle?
    ensures Enabled(worlds[i], p, Go) || exists p2 :: worlds[i].lock == Some(p2) && Enabled(worlds[i], p2, Go)
  {
    var free := RunFull(worlds, moves, l, i);
    var w := worlds[i];
    if !Enabled(w, p, Go) && w.lock.Some? {
      ProcOf(w, w.lock.value, free);
    }
  }

  /** The steps before the i-th that take a buffer off a list. */
  ghost function Takings(worlds: seq<World>, moves: seq<Move>, i: nat): set<nat>
    requires i <= |moves| && |moves| < |worlds|
  {
    set k | 0 <= k < i && Of(worlds[k], moves[k].p).pc.Taking?
  }

  lemma OneMoreStep(worlds: seq<World>, moves: seq<Move>, i: nat)
    requires i < |moves| && |moves| < |worlds|
    ensures |Takings(worlds, moves, i + 1)|
            == |Takings(worlds, moves, i)| + (if Of(worlds[i], moves[i].p).pc.Taking? then 1 else 0)
  {
    hide Of;
    assert Takings(worlds, moves, i + 1)
           == Takings(worlds, moves, i) + (if Of(worlds[i], moves[i].p).pc.Taking? then {i} else {});
  }

  /** The allocation count is the number of buffers taken. */
  lemma {:induction false} AllocCounts(worlds: seq<World>, moves: seq<Move>, l: Layout, i: nat)
    requires Run(worlds, moves, l) && i < |worlds|
    ensures worlds[i].allocCount == |Takings(worlds, moves, i)|
    decreases i
  {
    hide Next, Enabled, Of, Takings;
    if i == 0 {
      NoTakings(worlds, moves);
    } else {
      AllocCounts(worlds, moves, l, i - 1);
      NextSizes(worlds[i - 1], moves[i - 1].p, moves[i - 1].act);
      OneMoreStep(worlds, moves, i - 1);
    }
  }

  lemma NoTakings(worlds: seq<World>, moves: seq<Move>)
    requires |moves| < |worlds|
    ensures |Takings(worlds, moves, 0)| == 0
  {
    assert Takings(worlds, moves, 0) == {};
  }
}
