/** The stack on which the compiler of rule conditions allocates variables. */
module VarStacks {
  import opened Seqs

  type I32 = v: int | -0x8000_0000 <= v < 0x8000_0000

  const MAX_VARS := 2048

  datatype Type = Unknown | Integer | Float | Bool | String | Other

  // ----- The operations on values

  datatype Stack = Stack(used: I32, frameId: nat)

  datatype Frame = Frame(frameId: nat, start: I32, capacity: I32, used: I32)

  datatype Variable = Variable(frameId: nat, ty: Type, index: I32)

  /** `None` when the sum overflows or the variables would be too many. */
  function FrameOpened(s: Stack, capacity: I32): Option<(Stack, Frame)> {
    var sum := s.used + capacity;
    if !(-0x8000_0000 <= sum < 0x8000_0000) || sum > MAX_VARS then None
    else Some((Stack(sum, s.frameId + 1), Frame(s.frameId + 1, s.used, capacity, 0)))
  }

  /** `None` stands for a panic. */
  function Unwound(s: Stack, f: Frame): Option<Stack> {
    if s.used < f.start then None else Some(s.(used := f.start))
  }

  /** The sum of two `i32` numbers, which wraps around. */
  function Add(a: I32, b: I32): I32 {
    (a + b + 0x8000_0000) % 0x1_0000_0000 - 0x8000_0000
  }

  /** `None` stands for a panic. */
  function VarAdded(f: Frame, ty: Type): Option<(Frame, Variable)> {
    var index := Add(f.start, f.used);
    if f.used == f.capacity || index >= MAX_VARS then None
    else Some((f.(used := Add(f.used, 1)), Variable(f.frameId, ty, index)))
  }

  function Shift(v: Variable, from: I32, amount: I32): Option<Variable> {
    var index := if v.index >= from then Add(v.index, amount) else v.index;
    if index >= MAX_VARS then None else Some(v.(index := index))
  }

  // ----- Runs that respect the stack

  /**
   The stack, its live frames from the bottom up, the live variables, the
   identifiers given so far and the frames that were closed.
   */
  datatype System = System(stack: Stack, frames: seq<Frame>, vars: seq<Variable>, ids: seq<nat>, closed: seq<Frame>)

  datatype Operation = Open(capacity: nat) | Allocate(k: nat, ty: Type) | Close(k: nat)

  const EMPTY := System(Stack(0, 0), [], [], [], [])

  function Alive(vars: seq<Variable>, frames: seq<Frame>): seq<Variable> {
    if vars == [] then []
    else (if InFrames(vars[0], frames) then [vars[0]] else []) + Alive(vars[1..], frames)
  }

  predicate InFrames(v: Variable, frames: seq<Frame>) {
    exists k :: 0 <= k < |frames| && frames[k].frameId == v.frameId
  }

  /** An operation that is refused or that panics has no successor. */
  function Apply(s: System, op: Operation): Option<System> {
    match op
    case Open(capacity) =>
      if capacity >= 0x8000_0000 then None
      else
        var r := FrameOpened(s.stack, capacity);
        if r.None? then None
        else
          var (stack, frame) := r.value;
          Some(s.(stack := stack, frames := s.frames + [frame], ids := s.ids + [frame.frameId]))
    case Allocate(k, ty) =>
      if k >= |s.frames| then None
      else
        var r := VarAdded(s.frames[k], ty);
        if r.None? then None
        else
          var (frame, variable) := r.value;
          Some(s.(frames := s.frames[k := frame], vars := s.vars + [variable]))
    case Close(k) =>
      if k >= |s.frames| then None
      else
        var r := Unwound(s.stack, s.frames[k]);
        if r.None? then None
        else
          Some(s.(stack := r.value, frames := s.frames[..k], vars := Alive(s.vars, s.frames[..k]),
                  closed := s.closed + s.frames[k..]))
  }

  ghost predicate Leads(s: System, ops: seq<Operation>, t: System)
    decreases |ops|
  {
    if ops == [] then s == t
    else
      var r := Apply(s, ops[0]);
      r.Some? && Leads(r.value, ops[1..], t)
  }

  // ----- What every operation keeps

  function Top(frames: seq<Frame>): int {
    if frames == [] then 0 else var f := frames[|frames| - 1]; f.start + f.capacity
  }

  predicate FrameFits(f: Frame) { 0 <= f.start && 0 <= f.used <= f.capacity && f.start + f.capacity <= MAX_VARS }

  /** Frame `k` starts where the frame below it ends. */
  predicate OnTop(frames: seq<Frame>, k: nat)
    requires k < |frames|
  {
    frames[k].start == Top(frames[..k])
  }

  /** The frames lie one on top of the other, and the younger ones have larger identifiers. */
  predicate Stacked(frames: seq<Frame>) {
    && (forall k :: 0 <= k < |frames| ==> OnTop(frames, k))
    && (forall k :: 0 <= k < |frames| ==> FrameFits(frames[k]))
    && (forall i, j :: 0 <= i < j < |frames| ==>
          frames[i].start + frames[i].capacity <= frames[j].start && frames[i].frameId < frames[j].frameId)
  }

  predicate Inside(v: Variable, f: Frame) { v.frameId == f.frameId && f.start <= v.index < f.start + f.used }

  predicate HasHome(v: Variable, frames: seq<Frame>) {
    exists k :: 0 <= k < |frames| && Inside(v, frames[k])
  }

  predicate DistinctIndexes(vars: seq<Variable>) {
    forall i, j :: 0 <= i < j < |vars| ==> vars[i].index != vars[j].index
  }

  predicate Sound(s: System) {
    && Stacked(s.frames) && s.stack.used == Top(s.frames) && 0 <= s.stack.used <= MAX_VARS
    && (forall k :: 0 <= k < |s.frames| ==> s.frames[k].frameId <= s.stack.frameId)
    && (forall k :: 0 <= k < |s.ids| ==> s.ids[k] <= s.stack.frameId)
    && (forall i, j :: 0 <= i < j < |s.ids| ==> s.ids[i] < s.ids[j])
    && (forall i :: 0 <= i < |s.vars| ==> HasHome(s.vars[i], s.frames))
    && DistinctIndexes(s.vars)
  }

  lemma HomeIn(v: Variable, frames: seq<Frame>) returns (k: nat)
    requires HasHome(v, frames)
    ensures k < |frames| && Inside(v, frames[k])
  {
    k :| k < |frames| && Inside(v, frames[k]);
  }

  lemma OpenKeepsStack(frames: seq<Frame>, f: Frame)
    requires Stacked(frames) && FrameFits(f) && f.start == Top(frames)
    requires forall k :: 0 <= k < |frames| ==> frames[k].frameId < f.frameId
    ensures Stacked(frames + [f]) && Top(frames + [f]) == f.start + f.capacity
  {
    var t := frames + [f];
    BelowTop(frames);
    forall k | 0 <= k < |t| ensures OnTop(t, k) {
      if k < |frames| { assert OnTop(frames, k); }
      assert t[..k] == frames[..k];
    }
  }

  lemma OpenKeeps(s: System, capacity: nat)
    requires Sound(s) && Apply(s, Open(capacity)).Some?
    ensures Sound(Apply(s, Open(capacity)).value)
  {
    var t := Apply(s, Open(capacity)).value;
    OpenKeepsStack(s.frames, t.frames[|s.frames|]);
    hide Stacked, Top;
    forall i | 0 <= i < |t.vars| ensures HasHome(t.vars[i], t.frames) {
      var k := HomeIn(s.vars[i], s.frames);
      assert Inside(t.vars[i], t.frames[k]);
    }
  }

  lemma BelowTop(frames: seq<Frame>)
    requires Stacked(frames)
    ensures forall k :: 0 <= k < |frames| ==> frames[k].start + frames[k].capacity <= Top(frames)
  {
    forall k | 0 <= k < |frames| ensures frames[k].start + frames[k].capacity <= Top(frames) {
      assert FrameFits(frames[|frames| - 1]);
    }
  }

  lemma UseKeepsStack(frames: seq<Frame>, k: nat, f: Frame)
    requires Stacked(frames) && k < |frames| && FrameFits(f)
    requires f == frames[k].(used := f.used)
    ensures Stacked(frames[k := f]) && Top(frames[k := f]) == Top(frames)
  {
    var t := frames[k := f];
    forall j | 0 <= j < |t| ensures OnTop(t, j) {
      assert OnTop(frames, j);
      assert j > 0 ==> t[..j][j - 1].start == frames[..j][j - 1].start;
    }
  }

  lemma FitsInStack(frames: seq<Frame>, k: nat)
    requires Stacked(frames) && k < |frames|
    ensures FrameFits(frames[k])
  {}

  lemma AllocatedAt(s: System, k: nat, ty: Type)
    requires k < |s.frames| && FrameFits(s.frames[k]) && s.frames[k].used < s.frames[k].capacity
    ensures
      var f, r := s.frames[k], Apply(s, Allocate(k, ty));
      && r.Some? && |r.value.vars| == |s.vars| + 1 && r.value.vars[..|s.vars|] == s.vars
      && (var v := r.value.vars[|s.vars|]; v.frameId == f.frameId && v.ty == ty && v.index == f.start + f.used)
      && r.value.frames == s.frames[k := Frame(f.frameId, f.start, f.capacity, f.used + 1)]
      && r.value.stack == s.stack && r.value.ids == s.ids && r.value.closed == s.closed
  {}

  lemma AllocateKeeps(s: System, k: nat, ty: Type)
    requires Sound(s) && Apply(s, Allocate(k, ty)).Some?
    ensures Sound(Apply(s, Allocate(k, ty)).value)
  {
    hide Stacked, Top, HasHome, DistinctIndexes, FrameFits, Alive, FrameOpened, Unwound, Apply;
    CanAllocate(s, k, ty);
    AllocatedAt(s, k, ty);
    var t := Apply(s, Allocate(k, ty)).value;
    var v := t.vars[|s.vars|];
    FrameStaysFit(s.frames[k]);
    UseKeepsStack(s.frames, k, t.frames[k]);
    forall i | 0 <= i < |s.vars| ensures HasHome(t.vars[i], t.frames) && t.vars[i].index != v.index {
      assert t.vars[i] == t.vars[..|s.vars|][i];
      var j := HomeIn(s.vars[i], s.frames);
      HomeAt(t.vars[i], t.frames, j);
      NotInside(s.frames, j, k, s.vars[i], v.index);
    }
    assert Inside(v, t.frames[k]) by { FrameStarts(s.frames[k]); }
    HomeAt(v, t.frames, k);
    assert t.vars == s.vars + [v];
    DistinctSnoc(s.vars, v);
  }

  lemma CanAllocate(s: System, k: nat, ty: Type)
    requires Sound(s) && Apply(s, Allocate(k, ty)).Some?
    ensures k < |s.frames| && FrameFits(s.frames[k]) && s.frames[k].used < s.frames[k].capacity
  {
    hide Top, HasHome, DistinctIndexes;
    assert FrameFits(s.frames[k]) by { FitsInStack(s.frames, k); }
  }

  lemma FrameStaysFit(f: Frame)
    requires FrameFits(f) && f.used < f.capacity
    ensures FrameFits(Frame(f.frameId, f.start, f.capacity, f.used + 1))
  {}

  lemma FrameStarts(f: Frame)
    requires FrameFits(f)
    ensures f.start <= f.start + f.used < f.start + f.used + 1
  {}

  lemma HomeAt(v: Variable, frames: seq<Frame>, k: nat)
    requires k < |frames| && Inside(v, frames[k])
    ensures HasHome(v, frames)
  {}

  lemma DistinctSnoc(vars: seq<Variable>, v: Variable)
    requires DistinctIndexes(vars) && forall i :: 0 <= i < |vars| ==> vars[i].index != v.index
    ensures DistinctIndexes(vars + [v])
  {}

  /** A variable that is in some frame does not have the next index of a frame. */
  lemma NotInside(frames: seq<Frame>, j: nat, k: nat, v: Variable, index: int)
    requires Stacked(frames) && j < |frames| && k < |frames| && Inside(v, frames[j])
    requires index == frames[k].start + frames[k].used && frames[k].used < frames[k].capacity
    ensures v.index != index
  {
    assert FrameFits(frames[j]) && FrameFits(frames[k]);
  }

  lemma {:induction false} AliveOnes(vars: seq<Variable>, frames: seq<Frame>)
    ensures forall i :: 0 <= i < |Alive(vars, frames)| ==>
        InFrames(Alive(vars, frames)[i], frames) && Alive(vars, frames)[i] in vars
    ensures forall v :: v in vars && InFrames(v, frames) ==> v in Alive(vars, frames)
    decreases |vars|
  {
    if vars != [] {
      AliveOnes(vars[1..], frames);
      assert vars == [vars[0]] + vars[1..];
    }
  }

  lemma DistinctCons(v: Variable, rest: seq<Variable>)
    requires DistinctIndexes(rest) && forall i :: 0 <= i < |rest| ==> rest[i].index != v.index
    ensures DistinctIndexes([v] + rest)
  {}

  lemma {:induction false} AliveStayDistinct(vars: seq<Variable>, frames: seq<Frame>)
    requires DistinctIndexes(vars)
    ensures DistinctIndexes(Alive(vars, frames))
    decreases |vars|
  {
    if vars != [] {
      AliveStayDistinct(vars[1..], frames);
      AliveOnes(vars[1..], frames);
      var a := Alive(vars[1..], frames);
      forall j | 0 <= j < |a| ensures a[j].index != vars[0].index {
        var k := IndexOf(vars[1..], a[j]);
        assert vars[k + 1] == a[j];
      }
      DistinctCons(vars[0], a);
      assert [] + a == a;
    }
  }

  lemma HomeBelow(v: Variable, frames: seq<Frame>, k: nat)
    requires Stacked(frames) && k <= |frames| && HasHome(v, frames) && InFrames(v, frames[..k])
    ensures HasHome(v, frames[..k])
  {
    var i := HomeIn(v, frames);
    var j :| 0 <= j < k && frames[..k][j].frameId == v.frameId;
    assert frames[j].frameId == frames[i].frameId;
    assert i == j;
    assert Inside(v, frames[..k][j]);
  }

  lemma StackedBelow(frames: seq<Frame>, k: nat)
    requires Stacked(frames) && k < |frames|
    ensures Stacked(frames[..k]) && Top(frames[..k]) == frames[k].start
  {
    assert OnTop(frames, k);
    forall j | 0 <= j < k ensures OnTop(frames[..k], j) {
      assert OnTop(frames, j);
      assert frames[..k][..j] == frames[..j];
    }
  }

  lemma CloseKeeps(s: System, k: nat)
    requires Sound(s) && k < |s.frames|
    ensures Apply(s, Close(k)).Some? && Sound(Apply(s, Close(k)).value)
  {
    assert FrameFits(s.frames[k]);
    BelowTop(s.frames);
    StackedBelow(s.frames, k);
    var below := s.frames[..k];
    var alive := Alive(s.vars, below);
    AliveOnes(s.vars, below);
    AliveStayDistinct(s.vars, below);
    hide Alive, Stacked, DistinctIndexes, HasHome, InFrames, Top, FrameFits;
    forall i | 0 <= i < |alive| ensures HasHome(alive[i], below) {
      var j := IndexOf(s.vars, alive[i]);
      HomeBelow(s.vars[j], s.frames, k);
    }
  }

  lemma OperationKeeps(s: System, op: Operation)
    requires Sound(s) && Apply(s, op).Some?
    ensures Sound(Apply(s, op).value)
  {
    match op
    case Open(capacity) => OpenKeeps(s, capacity);
    case Allocate(k, ty) => AllocateKeeps(s, k, ty);
    case Close(k) => CloseKeeps(s, k);
  }

  lemma {:induction false} RunIsSound(s: System, ops: seq<Operation>, t: System)
    requires Sound(s) && Leads(s, ops, t)
    ensures Sound(t)
    decreases |ops|
  {
    if ops != [] {
      OperationKeeps(s, ops[0]);
      RunIsSound(Apply(s, ops[0]).value, ops[1..], t);
    }
  }

  // ----- What that means

  /** In every run the live variables have indexes of their own, all of them in range. */
  lemma VariablesAreDistinct(ops: seq<Operation>, s: System)
    requires Leads(EMPTY, ops, s)
    ensures forall i :: 0 <= i < |s.vars| ==> 0 <= s.vars[i].index < MAX_VARS
    ensures forall i, j :: 0 <= i < j < |s.vars| ==> s.vars[i].index != s.vars[j].index
  {
    RunIsSound(EMPTY, ops, s);
    forall i | 0 <= i < |s.vars| ensures 0 <= s.vars[i].index < MAX_VARS {
      var k := HomeIn(s.vars[i], s.frames);
      assert FrameFits(s.frames[k]);
    }
  }

  lemma EmptyIsSound()
    ensures Sound(EMPTY)
  {}

  /** In every run an allocated variable has the type asked for and is the next one of its frame. */
  lemma AllocatedExactly(ops: seq<Operation>, s: System, k: nat, ty: Type)
    requires Leads(EMPTY, ops, s) && k < |s.frames| && s.frames[k].used < s.frames[k].capacity
    ensures
      var f, r := s.frames[k], Apply(s, Allocate(k, ty));
      && r.Some? && |r.value.vars| == |s.vars| + 1 && r.value.vars[..|s.vars|] == s.vars
      && (var v := r.value.vars[|s.vars|]; v.frameId == f.frameId && v.ty == ty && v.index == f.start + f.used)
      && r.value.frames == s.frames[k := Frame(f.frameId, f.start, f.capacity, f.used + 1)]
      && r.value.stack == s.stack && r.value.ids == s.ids && r.value.closed == s.closed
  {
    EmptyIsSound();
    hide Leads, Apply, Stacked, HasHome, DistinctIndexes, FrameFits;
    RunIsSound(EMPTY, ops, s);
    assert FrameFits(s.frames[k]) by { FitsInStack(s.frames, k); }
    AllocatedAt(s, k, ty);
  }

  /** In every run a frame is opened where the stack ends, with an identifier that is new. */
  lemma OpenedExactly(ops: seq<Operation>, s: System, capacity: nat)
    requires Leads(EMPTY, ops, s) && s.stack.used + capacity <= 2048
    ensures
      var r := Apply(s, Open(capacity));
      && r.Some? && r.value.stack.used == s.stack.used + capacity && r.value.vars == s.vars
      && |r.value.frames| == |s.frames| + 1 && r.value.frames[..|s.frames|] == s.frames
      && var f := r.value.frames[|s.frames|];
         && f.start == s.stack.used && f.capacity == capacity && f.used == 0
         && f.frameId !in s.ids && r.value.ids == s.ids + [f.frameId]
  {
    RunIsSound(EMPTY, ops, s);
  }

  /** In every run closing a frame leaves the frames below it and their variables, and frees what is above. */
  lemma ClosedExactly(ops: seq<Operation>, s: System, k: nat)
    requires Leads(EMPTY, ops, s) && k < |s.frames|
    ensures
      var r := Apply(s, Close(k));
      && r.Some? && r.value.stack.used == s.frames[k].start && r.value.frames == s.frames[..k]
      && forall v :: v in r.value.vars <==> v in s.vars && exists j :: 0 <= j < k && s.frames[j].frameId == v.frameId
  {
    EmptyIsSound();
    hide Leads, Stacked, HasHome, DistinctIndexes, FrameFits, Alive, Top;
    RunIsSound(EMPTY, ops, s);
    BelowTop(s.frames);
    FitsInStack(s.frames, k);
    StartsBelow(s.frames, k);
    forall v ensures v in Alive(s.vars, s.frames[..k]) <==>
                     v in s.vars && exists j :: 0 <= j < k && s.frames[j].frameId == v.frameId {
      StillAlive(s.vars, s.frames, k, v);
    }
  }

  lemma StartsBelow(frames: seq<Frame>, k: nat)
    requires k < |frames| && FrameFits(frames[k]) && frames[k].start + frames[k].capacity <= Top(frames)
    ensures frames[k].start <= Top(frames)
  {}

  lemma StillAlive(vars: seq<Variable>, frames: seq<Frame>, k: nat, v: Variable)
    requires k <= |frames|
    ensures v in Alive(vars, frames[..k]) <==> v in vars && exists j :: 0 <= j < k && frames[j].frameId == v.frameId
  {
    var below := frames[..k];
    AliveOnes(vars, below);
    var alive := Alive(vars, below);
    hide Alive;
    if v in alive {
      var i := IndexOf(alive, v);
      var j :| 0 <= j < |below| && below[j].frameId == v.frameId;
      assert frames[j].frameId == v.frameId;
    }
    if j :| 0 <= j < k && frames[j].frameId == v.frameId {
      assert below[j].frameId == v.frameId;
    }
  }

  /** The live frames occupy disjoint intervals, and no identifier is given twice. */
  lemma FramesAreDisjoint(ops: seq<Operation>, s: System)
    requires Leads(EMPTY, ops, s)
    ensures forall k :: 0 <= k < |s.frames| ==>
              0 <= s.frames[k].start && s.frames[k].start + s.frames[k].capacity <= s.stack.used <= MAX_VARS
    ensures forall i, j :: 0 <= i < j < |s.frames| ==>
              s.frames[i].start + s.frames[i].capacity <= s.frames[j].start
    ensures forall i, j :: 0 <= i < j < |s.ids| ==> s.ids[i] != s.ids[j]
  {
    RunIsSound(EMPTY, ops, s);
    BelowTop(s.frames);
    forall k | 0 <= k < |s.frames| ensures 0 <= s.frames[k].start {
      assert FrameFits(s.frames[k]);
    }
  }

  /** A frame has room for exactly as many variables as it was opened for. */
  lemma AllocationFailsExactly(ops: seq<Operation>, s: System, k: nat, ty: Type)
    requires Leads(EMPTY, ops, s) && k < |s.frames|
    ensures Apply(s, Allocate(k, ty)).None? <==> s.frames[k].used == s.frames[k].capacity
  {
    EmptyIsSound();
    hide Leads, Stacked, HasHome, DistinctIndexes, FrameFits;
    RunIsSound(EMPTY, ops, s);
    FitsInStack(s.frames, k);
    FullExactly(s.frames[k], ty);
  }

  lemma FullExactly(f: Frame, ty: Type)
    requires FrameFits(f)
    ensures VarAdded(f, ty).None? <==> f.used == f.capacity
  {}

  /** A frame is refused exactly when it would not fit; closing a live one never panics. */
  lemma OpeningFailsExactly(ops: seq<Operation>, s: System, capacity: nat, k: nat)
    requires Leads(EMPTY, ops, s)
    ensures Apply(s, Open(capacity)).None? <==> s.stack.used + capacity > 2048
    ensures k < |s.frames| ==> Apply(s, Close(k)).Some?
  {
    RunIsSound(EMPTY, ops, s);
    if k < |s.frames| {
      CloseKeeps(s, k);
    }
  }

  // ----- Closing a frame undoes everything since it was opened

  predicate SamePlace(f: Frame, g: Frame) { f.frameId == g.frameId && f.start == g.start && f.capacity == g.capacity }

  predicate SameBelow(s: seq<Frame>, t: seq<Frame>, n: nat) {
    n <= |s| && n <= |t| && forall i :: 0 <= i < n ==> SamePlace(s[i], t[i])
  }

  /** The frame `id` is still at position `k` above the same frames, or it is gone for good. */
  predicate StillOrGone(before: seq<Frame>, id: nat, t: System) {
    var k := |before| - 1;
    && k >= 0 && before[k].frameId == id <= t.stack.frameId
    && (SameBelow(before, t.frames, k + 1) || forall i :: 0 <= i < |t.frames| ==> t.frames[i].frameId != id)
  }

  lemma SameBelowChains(s: seq<Frame>, t: seq<Frame>, u: seq<Frame>, n: nat)
    requires SameBelow(s, t, n) && SameBelow(t, u, n)
    ensures SameBelow(s, u, n)
  {
    forall i | 0 <= i < n ensures SamePlace(s[i], u[i]) {
      assert SamePlace(s[i], t[i]) && SamePlace(t[i], u[i]);
    }
  }

  /** What an operation does to the frames. */
  lemma FramesAfter(s: System, op: Operation)
    requires Apply(s, op).Some?
    ensures
      var t := Apply(s, op).value;
      && t.stack.frameId == (if op.Open? then s.stack.frameId + 1 else s.stack.frameId)
      && match op
         case Open(_) => |t.frames| == |s.frames| + 1 && t.frames[..|s.frames|] == s.frames
                         && t.frames[|s.frames|].frameId == s.stack.frameId + 1
         case Allocate(_, _) => |t.frames| == |s.frames| && SameBelow(s.frames, t.frames, |s.frames|)
         case Close(k) => k < |s.frames| && t.frames == s.frames[..k]
  {}

  lemma Younger(s: System, i: nat, j: nat)
    requires Sound(s) && i < j < |s.frames|
    ensures s.frames[i].frameId < s.frames[j].frameId
  {}

  lemma StillOrGoneStep(before: seq<Frame>, id: nat, s: System, op: Operation)
    requires Sound(s) && Apply(s, op).Some? && StillOrGone(before, id, s)
    ensures StillOrGone(before, id, Apply(s, op).value)
  {
    hide Apply, Sound;
    FramesAfter(s, op);
    var t, k := Apply(s, op).value, |before| - 1;
    if SameBelow(before, s.frames, k + 1) {
      if op.Close? && op.k <= k {
        assert SamePlace(before[k], s.frames[k]);
        forall i | 0 <= i < |t.frames| ensures t.frames[i].frameId != id {
          Younger(s, i, k);
        }
      } else {
        forall i | 0 <= i < k + 1 ensures i < |t.frames| && SamePlace(s.frames[i], t.frames[i]) {
          assert op.Open? ==> t.frames[i] == t.frames[..|s.frames|][i];
        }
        SameBelowChains(before, s.frames, t.frames, k + 1);
      }
    } else {
      forall i | 0 <= i < |t.frames| ensures t.frames[i].frameId != id {
        if i < |s.frames| {
          assert op.Open? ==> t.frames[i] == t.frames[..|s.frames|][i];
          assert op.Allocate? ==> SamePlace(s.frames[i], t.frames[i]);
          assert s.frames[i].frameId != id;
        }
      }
    }
  }

  lemma {:induction false} StillOrGoneRun(before: seq<Frame>, id: nat, s: System, ops: seq<Operation>, t: System)
    requires Sound(s) && Leads(s, ops, t) && StillOrGone(before, id, s)
    ensures StillOrGone(before, id, t)
    decreases |ops|
  {
    hide StillOrGone;
    if ops != [] {
      OperationKeeps(s, ops[0]);
      StillOrGoneStep(before, id, s, ops[0]);
      StillOrGoneRun(before, id, Apply(s, ops[0]).value, ops[1..], t);
    }
  }

  /**
   Whatever happens between the opening of a frame and its closing, closing it
   brings back the occupancy and the frames from before it was opened.
   */
  lemma UnwindRestores(s: System, capacity: nat, ops: seq<Operation>, t: System, k: nat)
    requires Sound(s) && Apply(s, Open(capacity)).Some?
    requires Leads(Apply(s, Open(capacity)).value, ops, t)
    requires k < |t.frames| && t.frames[k].frameId == s.stack.frameId + 1
    ensures Apply(t, Close(k)).Some?
    ensures
      var u := Apply(t, Close(k)).value;
      u.stack.used == s.stack.used && |u.frames| == |s.frames| && SameBelow(s.frames, u.frames, |s.frames|)
  {
    var first, id := Apply(s, Open(capacity)).value, s.stack.frameId + 1;
    OperationKeeps(s, Open(capacity));
    assert SameBelow(first.frames, first.frames, |first.frames|);
    StillOrGoneRun(first.frames, id, first, ops, t);
    RunIsSound(first, ops, t);
    var n := |s.frames|;
    assert SamePlace(first.frames[n], t.frames[n]);
    assert k == n;
    CloseKeeps(t, k);
    forall i | 0 <= i < n ensures SamePlace(s.frames[i], t.frames[..k][i]) {
      assert SamePlace(first.frames[i], t.frames[i]);
    }
  }

  // ----- Closing a frame again

  function End(f: Frame): int { f.start + f.capacity }

  /** The frame lies within the part of the stack that is in use. */
  predicate HasPlace(s: Stack, f: Frame) { End(f) <= s.used }

  /** A closed frame is not live, and the live frames that are older lie below it. */
  predicate PastOf(s: System, f: Frame) {
    && 0 <= f.start
    && f.frameId <= s.stack.frameId
    && forall k :: 0 <= k < |s.frames| ==>
         s.frames[k].frameId != f.frameId && (s.frames[k].frameId < f.frameId ==> End(s.frames[k]) <= f.start)
  }

  predicate PastIsSound(s: System) {
    forall i :: 0 <= i < |s.closed| ==> PastOf(s, s.closed[i])
  }

  lemma CloseKeepsPast(s: System, k: nat)
    requires Sound(s) && PastIsSound(s) && k < |s.frames| && Apply(s, Close(k)).Some?
    ensures PastIsSound(Apply(s, Close(k)).value)
  {
    var t := Apply(s, Close(k)).value;
    hide Alive, OnTop, HasHome, DistinctIndexes;
    forall i | 0 <= i < |t.closed| ensures PastOf(t, t.closed[i]) {
      if i < |s.closed| {
        assert PastOf(s, s.closed[i]);
      } else {
        assert t.closed[i] == s.frames[k + (i - |s.closed|)];
        assert FrameFits(t.closed[i]);
      }
    }
  }

  lemma OperationKeepsPast(s: System, op: Operation)
    requires Sound(s) && PastIsSound(s) && Apply(s, op).Some?
    ensures PastIsSound(Apply(s, op).value)
  {
    var t := Apply(s, op).value;
    if op.Close? {
      CloseKeepsPast(s, op.k);
    } else {
      forall i | 0 <= i < |t.closed| ensures PastOf(t, t.closed[i]) {
        assert PastOf(s, s.closed[i]);
      }
    }
  }

  lemma {:induction false} RunKeepsPast(s: System, ops: seq<Operation>, t: System)
    requires Sound(s) && PastIsSound(s) && Leads(s, ops, t)
    ensures PastIsSound(t)
    decreases |ops|
  {
    if ops != [] {
      OperationKeeps(s, ops[0]);
      OperationKeepsPast(s, ops[0]);
      RunKeepsPast(Apply(s, ops[0]).value, ops[1..], t);
    }
  }

  predicate Recorded(s: System, id: nat) {
    (exists k :: 0 <= k < |s.frames| && s.frames[k].frameId == id) ||
    (exists k :: 0 <= k < |s.closed| && s.closed[k].frameId == id)
  }

  lemma StaysRecorded(s: System, op: Operation, id: nat)
    requires Apply(s, op).Some? && Recorded(s, id)
    ensures Recorded(Apply(s, op).value, id)
  {
    var t := Apply(s, op).value;
    if k :| 0 <= k < |s.closed| && s.closed[k].frameId == id {
      assert t.closed[k] == s.closed[k];
    } else {
      var k :| 0 <= k < |s.frames| && s.frames[k].frameId == id;
      if op.Close? && op.k <= k {
        assert t.closed[|s.closed| + (k - op.k)] == s.frames[k];
      } else {
        assert t.frames[k].frameId == id;
      }
    }
  }

  /** Every frame that was opened is live or among the closed ones. */
  lemma {:induction false} FramesAreRecorded(s: System, ops: seq<Operation>, t: System)
    requires Leads(s, ops, t) && forall i :: 0 <= i < |s.ids| ==> Recorded(s, s.ids[i])
    ensures forall i :: 0 <= i < |t.ids| ==> Recorded(t, t.ids[i])
    decreases |ops|
  {
    if ops != [] {
      var u := Apply(s, ops[0]).value;
      forall i | 0 <= i < |u.ids| ensures Recorded(u, u.ids[i]) {
        if i < |s.ids| {
          StaysRecorded(s, ops[0], s.ids[i]);
        } else {
          assert u.frames[|s.frames|].frameId == u.ids[i];
        }
      }
      FramesAreRecorded(u, ops[1..], t);
    }
  }

  /**
   Closing a closed frame again, in any run. It panics exactly if the live
   frames end before the place where that frame started. Otherwise a live frame
   keeps its place exactly if it ends there at the latest, which all older
   frames do, and no harm is done exactly if the stack was used up to that place.
   */
  lemma SecondUnwindExactly(ops: seq<Operation>, t: System, f: Frame)
    requires Leads(EMPTY, ops, t) && f in t.closed
    ensures Unwound(t.stack, f).None? <==> Top(t.frames) < f.start
    ensures Unwound(t.stack, f).Some? ==>
              var u := Unwound(t.stack, f).value;
              && (forall k :: 0 <= k < |t.frames| ==> (HasPlace(u, t.frames[k]) <==> End(t.frames[k]) <= f.start))
              && (forall k :: 0 <= k < |t.frames| && t.frames[k].frameId < f.frameId ==> HasPlace(u, t.frames[k]))
              && ((forall k :: 0 <= k < |t.frames| ==> HasPlace(u, t.frames[k])) <==> t.stack.used == f.start)
              && (t.stack.used == f.start ==> u == t.stack)
  {
    RunIsSound(EMPTY, ops, t);
    RunKeepsPast(EMPTY, ops, t);
    var i := IndexOf(t.closed, f);
    assert PastOf(t, t.closed[i]);
    BelowTop(t.frames);
    assert t.frames != [] ==> End(t.frames[|t.frames| - 1]) == t.stack.used;
  }

  /** A second closing that does harm: the frame opened in between loses its place. */
  lemma DoubleFreeGoesUnnoticed()
    ensures
      var ops := [Open(1), Close(0), Open(2)];
      exists s ::
        && Leads(EMPTY, ops, s) && s.frames == [Frame(2, 0, 2, 0)] && Frame(1, 0, 1, 0) in s.closed
        && Unwound(s.stack, Frame(1, 0, 1, 0)) == Some(Stack(0, 2)) && !HasPlace(Stack(0, 2), s.frames[0])
  {
    var a := Apply(EMPTY, Open(1)).value;
    var b := Apply(a, Close(0)).value;
    var c := Apply(b, Open(2)).value;
    assert Leads(c, [], c);
    assert [Open(2)][1..] == [] && [Close(0), Open(2)][1..] == [Open(2)];
    assert [Open(1), Close(0), Open(2)][1..] == [Close(0), Open(2)];
    assert a.frames == [Frame(1, 0, 1, 0)] && a.frames[..0] == [] && b.closed == [Frame(1, 0, 1, 0)];
    assert b.frames == [] && c.frames == [Frame(2, 0, 2, 0)];
    assert Leads(b, [Open(2)], c);
    assert Leads(a, [Close(0), Open(2)], c);
  }

  // ----- Shifting

  function ShiftAll(vars: seq<Variable>, from: I32, amount: I32): (r: Option<seq<Variable>>)
    ensures r.Some? ==> |r.value| == |vars|
  {
    if vars == [] then Some([])
    else
      var first, rest := Shift(vars[0], from, amount), ShiftAll(vars[1..], from, amount);
      if first.None? || rest.None? then None else Some([first.value] + rest.value)
  }

  predicate InRange(v: Variable) { 0 <= v.index < MAX_VARS }

  /** The index of a variable that is moved, before it wraps around. */
  function Target(v: Variable, amount: I32): int { v.index + amount }

  /** When moving a variable succeeds and what it gives: the panic misses an index that wraps around. */
  lemma ShiftExactly(v: Variable, from: I32, amount: I32)
    requires InRange(v)
    ensures v.index < from ==> Shift(v, from, amount) == Some(v)
    ensures v.index >= from ==>
              var to := Target(v, amount);
              && (Shift(v, from, amount).Some? <==> to < MAX_VARS || 0x8000_0000 <= to)
              && (Shift(v, from, amount).Some? ==>
                    Shift(v, from, amount).value == v.(index := if to < MAX_VARS then to else to - 0x1_0000_0000))
  {}

  predicate Moves(v: Variable, from: I32) { v.index >= from }

  /** A variable is moved to the index of one that stays. */
  predicate Collide(v: Variable, w: Variable, from: I32, amount: I32) {
    !Moves(v, from) && Moves(w, from) && v.index == Target(w, amount)
  }

  /**
   Shifting all variables by any amount. It succeeds exactly if every variable
   that moves ends below the limit or wraps around; the indexes stay distinct
   exactly if no variable moves onto one that stays, and in range exactly if
   all targets are.
   */
  lemma {:induction false} ShiftAllExactly(vars: seq<Variable>, from: I32, amount: I32)
    requires DistinctIndexes(vars) && forall i :: 0 <= i < |vars| ==> InRange(vars[i])
    ensures
      ShiftAll(vars, from, amount).Some? <==>
      forall i :: 0 <= i < |vars| && Moves(vars[i], from) ==>
        Target(vars[i], amount) < MAX_VARS || 0x8000_0000 <= Target(vars[i], amount)
    ensures ShiftAll(vars, from, amount).Some? ==>
              var r := ShiftAll(vars, from, amount).value;
              && (forall i :: 0 <= i < |r| ==> r[i].frameId == vars[i].frameId && r[i].ty == vars[i].ty)
              && (DistinctIndexes(r) <==>
                  forall i, j :: 0 <= i < |vars| && 0 <= j < |vars| ==> !Collide(vars[i], vars[j], from, amount))
              && ((forall i :: 0 <= i < |r| ==> InRange(r[i])) <==>
                  forall i :: 0 <= i < |vars| && Moves(vars[i], from) ==> 0 <= Target(vars[i], amount) < MAX_VARS)
  {
    ShiftEach(vars, from, amount);
    forall i | 0 <= i < |vars|
      ensures
        Shift(vars[i], from, amount).Some? <==>
        (Moves(vars[i], from) ==> Target(vars[i], amount) < MAX_VARS || 0x8000_0000 <= Target(vars[i], amount))
    {
      ShiftExactly(vars[i], from, amount);
    }
    if ShiftAll(vars, from, amount).Some? {
      var r := ShiftAll(vars, from, amount).value;
      forall i | 0 <= i < |r|
        ensures Shift(vars[i], from, amount) == Some(r[i])
        ensures r[i].frameId == vars[i].frameId && r[i].ty == vars[i].ty
        ensures InRange(r[i]) <==> (Moves(vars[i], from) ==> 0 <= Target(vars[i], amount) < MAX_VARS)
      {
        ShiftExactly(vars[i], from, amount);
      }
      ShiftDistinct(vars, r, from, amount);
    }
  }

  lemma ShiftDistinct(vars: seq<Variable>, r: seq<Variable>, from: I32, amount: I32)
    requires DistinctIndexes(vars) && |r| == |vars| && forall i :: 0 <= i < |vars| ==> InRange(vars[i])
    requires forall i :: 0 <= i < |vars| ==> Shift(vars[i], from, amount) == Some(r[i])
    ensures DistinctIndexes(r) <==>
            forall i, j :: 0 <= i < |vars| && 0 <= j < |vars| ==> !Collide(vars[i], vars[j], from, amount)
  {
    forall i, j | 0 <= i < |vars| && 0 <= j < |vars| && i != j
      ensures r[i].index == r[j].index <==>
              Collide(vars[i], vars[j], from, amount) || Collide(vars[j], vars[i], from, amount)
    {
      ShiftExactly(vars[i], from, amount);
      ShiftExactly(vars[j], from, amount);
      assert vars[i].index != vars[j].index;
    }
    if DistinctIndexes(r) {
      forall i, j | 0 <= i < |vars| && 0 <= j < |vars| ensures !Collide(vars[i], vars[j], from, amount) {
        if i < j { assert r[i].index != r[j].index; } else if j < i { assert r[j].index != r[i].index; }
      }
    }
  }

  /** Moving up keeps variables that end in range distinct, and the indexes from `from` on become free. */
  lemma ShiftOpensGap(vars: seq<Variable>, from: I32, amount: I32)
    requires DistinctIndexes(vars) && forall i :: 0 <= i < |vars| ==> InRange(vars[i])
    requires 0 <= amount
    ensures ShiftAll(vars, from, amount).Some? ==>
              var r := ShiftAll(vars, from, amount).value;
              && DistinctIndexes(r)
              && forall i :: 0 <= i < |r| && InRange(r[i]) ==> !(from <= r[i].index < from + amount)
  {
    ShiftAllExactly(vars, from, amount);
    ShiftEach(vars, from, amount);
    if ShiftAll(vars, from, amount).Some? {
      var r := ShiftAll(vars, from, amount).value;
      forall i | 0 <= i < |r| && InRange(r[i]) ensures !(from <= r[i].index < from + amount) {
        ShiftExactly(vars[i], from, amount);
      }
    }
  }

  lemma {:induction false} ShiftEach(vars: seq<Variable>, from: I32, amount: I32)
    ensures ShiftAll(vars, from, amount).Some? <==> forall i :: 0 <= i < |vars| ==> Shift(vars[i], from, amount).Some?
    ensures ShiftAll(vars, from, amount).Some? ==>
              forall i :: 0 <= i < |vars| ==>
                  Shift(vars[i], from, amount) == Some(ShiftAll(vars, from, amount).value[i])
    decreases |vars|
  {
    if vars != [] {
      ShiftEach(vars[1..], from, amount);
      assert forall i :: 1 <= i < |vars| ==> vars[i] == vars[1..][i - 1];
    }
  }

  // ----- The classes of the compiler

  class VarStackFrame {
    var frameId: nat
    var start: I32
    var capacity: I32
    var used: I32

    function Value(): Frame
      reads this
    {
      Frame(frameId, start, capacity, used)
    }

    constructor (f: Frame)
      ensures Value() == f
    {
      frameId, start, capacity, used := f.frameId, f.start, f.capacity, f.used;
    }

    /** `None` stands for a panic, which comes after the place was taken if the index is out of bounds. */
    method NewVar(ty: Type) returns (r: Option<Variable>)
      modifies this
      ensures
        var was, n := old(Value()), VarAdded(old(Value()), ty);
        && (n.Some? ==> Value() == n.value.0 && r == Some(n.value.1))
        && (n.None? ==> r.None? && Value() == if was.used == was.capacity then was else was.(used := Add(was.used, 1)))
    {
      if used == capacity {
        return None;
      }
      var index := Add(used, start);
      used := Add(used, 1);
      if index >= MAX_VARS {
        return None;
      }
      r := Some(Variable(frameId, ty, index));
    }
  }

  class VarStack {
    var used: I32
    var frameId: nat

    function Value(): Stack
      reads this
    {
      Stack(used, frameId)
    }

    constructor ()
      ensures Value() == EMPTY.stack
    {
      used, frameId := 0, 0;
    }

    method NewFrame(capacity: I32) returns (r: Option<VarStackFrame>)
      modifies this
      ensures
        var n := FrameOpened(old(Value()), capacity);
        if n.None? then r.None? && Value() == old(Value())
        else Value() == n.value.0 && r.Some? && fresh(r.value) && r.value.Value() == n.value.1
    {
      var sum := used + capacity;
      if sum < -0x8000_0000 || 0x8000_0000 <= sum || sum > MAX_VARS {
        return None;
      }
      var start := used;
      used := sum;
      frameId := frameId + 1;
      var frame := new VarStackFrame(Frame(frameId, start, capacity, 0));
      r := Some(frame);
    }

    /** The result is false for a panic. */
    method Unwind(frame: VarStackFrame) returns (ok: bool)
      modifies this
      ensures
        var n := Unwound(old(Value()), frame.Value());
        if n.None? then !ok && Value() == old(Value()) else ok && Value() == n.value
    {
      if used < frame.start {
        return false;
      }
      used := frame.start;
      ok := true;
    }
  }
}
