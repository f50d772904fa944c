/** Where the machine is when a statement has run, and what it has left alone. */
module LowerFrames {
  import opened Ast
  import opened Values
  import opened Graph
  import opened Scopes
  import opened Source
  import opened Lower
  import opened LowerExprs

  // ---------------------------------------------------------------------------
  // Places
  // ---------------------------------------------------------------------------

  /** No two variables share a slot. */
  predicate Separate(places: Places) {
    forall i, j, x, y |
      0 <= i < |places| && 0 <= j < |places| && x in places[i] && y in places[j] &&
      places[i][x].slot == places[j][y].slot :: i == j && x == y
  }

  function Owned(places: Places): set<nat> {
    set k, x | 0 <= k < |places| && x in places[k] :: places[k][x].slot
  }

  /** Slots below `n` that belong to no variable are as they were. */
  predicate AgreeOutside(slots: Slots, later: Slots, n: nat, owned: set<nat>) {
    forall k | k in slots && k < n && k !in owned :: k in later && later[k] == slots[k]
  }

  lemma AgreeOutsideTrans(a: Slots, b: Slots, c: Slots, n: nat, m: nat, owned: set<nat>, more: set<nat>)
    requires n <= m && AgreeOutside(a, b, n, owned) && AgreeOutside(b, c, m, more)
    requires forall k | k in more && k < n :: k in owned
    ensures AgreeOutside(a, c, n, owned)
  {
  }

  /** The scopes and the stack frame match before a statement. */
  ghost predicate Aligned(u: Unit, c: Code, frames: Frames, places: Places, slots: Slots) {
    Ready(u, c, frames, places, slots) && Separate(places) && places != []
  }

  lemma AlignedLater(u: Unit, c: Code, d: Code, frames: Frames, places: Places, slots: Slots, later: Slots)
    requires Aligned(u, c, frames, places, slots)
    requires d.names == c.names && d.slots >= c.slots && Agree(slots, later, c.slots)
    ensures Aligned(u, d, frames, places, later)
  {
    hide Ready;
    ReadyLater(u, c, d, frames, places, slots, later);
  }

  /** A new variable in the innermost scope gets the next slot. */
  lemma DeclareAligned(
    u: Unit, c: Code, d: Code, frames: Frames, places: Places, slots: Slots, name: string, ty: Type, v: Value, slot: nat)
    requires Aligned(u, c, frames, places, slots) && PlacesBelow(places, slot)
    requires d.names == c.names[name := Entry(slot, ty)] && d.slots > slot && d.slots >= c.slots
    requires Typed(v, ty) && ty != Void && frames != []
    ensures Aligned(u, d, Declare(frames, name, v), Declare(places, name, Entry(slot, ty)), slots[slot := v])
  {
    hide Held, NamesMatch, Separate, Declare;
    DeclareHeld(frames, places, slots, name, ty, v, slot);
    DeclareNames(u, c.names, places, name, Entry(slot, ty));
    DeclareSeparate(places, name, Entry(slot, ty));
    DeclareBelow(places, name, Entry(slot, ty), d.slots);
  }

  lemma DeclareBelow(places: Places, name: string, entry: Entry, n: nat)
    requires places != [] && PlacesBelow(places, n) && entry.slot < n
    ensures PlacesBelow(Declare(places, name, entry), n) && Declare(places, name, entry) != []
  {
  }

  lemma DeclareHeld(frames: Frames, places: Places, slots: Slots, name: string, ty: Type, v: Value, slot: nat)
    requires Held(frames, places, slots) && PlacesBelow(places, slot) && frames != []
    requires Typed(v, ty) && ty != Void
    ensures places != [] && Held(Declare(frames, name, v), Declare(places, name, Entry(slot, ty)), slots[slot := v])
  {
    var places2: Places, frames2: Frames := Declare(places, name, Entry(slot, ty)), Declare(frames, name, v);
    forall k | 0 <= k < |frames2| ensures FrameHeld(frames2[k], places2[k], slots[slot := v]) {
      assert FrameHeld(frames[k], places[k], slots);
    }
  }

  lemma DeclareNames(u: Unit, names: map<string, Entry>, places: Places, name: string, entry: Entry)
    requires places != [] && NamesMatch(u, names, places)
    ensures NamesMatch(u, names[name := entry], Declare(places, name, entry))
  {
    forall x: string ensures Resolve(u, names[name := entry], x) == Lookup(Declare(places, name, entry), x) {
      assert Resolve(u, names, x) == Lookup(places, x);
      LookupDeclared(places, name, entry, x);
    }
  }

  lemma DeclareSeparate(places: Places, name: string, entry: Entry)
    requires places != [] && Separate(places) && PlacesBelow(places, entry.slot)
    ensures Separate(Declare(places, name, entry))
  {
    var places2: Places := Declare(places, name, entry);
    forall i, j, x, y |
      0 <= i < |places2| && 0 <= j < |places2| && x in places2[i] && y in places2[j] &&
      places2[i][x].slot == places2[j][y].slot
      ensures i == j && x == y
    {
      var last := |places| - 1;
      if !(i == last && x == name) {
        assert x in places[i] && places2[i][x] == places[i][x];
      }
      if !(j == last && y == name) {
        assert y in places[j] && places2[j][y] == places[j][y];
      }
    }
  }

  /** A visible variable gets a new value. */
  lemma AssignHeld(frames: Frames, places: Places, slots: Slots, k: nat, x: string, v: Value)
    requires Held(frames, places, slots) && Separate(places)
    requires k < |places| && x in places[k] && Typed(v, places[k][x].ty)
    ensures Held(Update(frames, k, x, v), places, slots[places[k][x].slot := v])
  {
    var later := slots[places[k][x].slot := v];
    var frames2: Frames := Update(frames, k, x, v);
    forall j | 0 <= j < |frames2| ensures FrameHeld(frames2[j], places[j], later) {
      assert FrameHeld(frames[j], places[j], slots);
      assert FrameHeld(frames[k], places[k], slots);
    }
  }

  /** A scope is opened without variables. */
  lemma PushAligned(u: Unit, c: Code, frames: Frames, places: Places, slots: Slots)
    requires Aligned(u, c, frames, places, slots)
    ensures Aligned(u, c, frames + [map[]], places + [map[]], slots)
  {
    var frames2: Frames, places2: Places := frames + [map[]], places + [map[]];
    forall k | 0 <= k < |frames2| ensures FrameHeld(frames2[k], places2[k], slots) {
      if k < |frames| {
        assert FrameHeld(frames[k], places[k], slots);
      }
    }
    forall x: string ensures Resolve(u, c.names, x) == Lookup(places2, x) {
      assert Resolve(u, c.names, x) == Lookup(places, x);
      LookupPushed(places, x);
    }
  }

  lemma PopHeld(frames: Frames, places: Places, slots: Slots)
    requires Held(frames, places, slots)
    ensures Held(Pop(frames), Pop(places), slots)
  {
    forall k | 0 <= k < |Pop(frames)| ensures FrameHeld(Pop(frames)[k], Pop(places)[k], slots) {
      assert FrameHeld(frames[k], places[k], slots);
    }
  }

  lemma OwnedPushed(places: Places)
    ensures Owned(places + [map[]]) == Owned(places)
  {
    var pushed: Places := places + [map[]];
    forall k, x | 0 <= k < |places| && x in places[k] ensures places[k][x].slot in Owned(pushed) {
      assert pushed[k] == places[k];
      assert x in pushed[k];
    }
    forall s | s in Owned(pushed) ensures s in Owned(places) {
      var k, x :| 0 <= k < |pushed| && x in pushed[k] && pushed[k][x].slot == s;
      assert pushed[k] == places[k];
    }
  }

  /** Declaring a variable in a new slot leaves the ownership of older slots alone. */
  lemma OwnedDeclared(places: Places, name: string, entry: Entry, n: nat)
    requires places != [] && n <= entry.slot
    ensures forall s | s in Owned(Declare(places, name, entry)) && s < n :: s in Owned(places)
  {
    var places2: Places := Declare(places, name, entry);
    forall s | s in Owned(places2) && s < n ensures s in Owned(places) {
      var k, x :| 0 <= k < |places2| && x in places2[k] && places2[k][x].slot == s;
      assert x in places[k] && places[k][x] == places2[k][x];
    }
  }

  // ---------------------------------------------------------------------------
  // After a statement
  // ---------------------------------------------------------------------------

  lemma CoversExtends(g: Blocks, c: Code, d: Code, lo: nat, hi: nat)
    requires Covers(g, d) && Extends(c, d, lo, hi)
    ensures Covers(g, c)
  {
    forall b | 0 <= b < |c.blocks| ensures c.blocks[b] <= g[b] {
      assert d.blocks[b] <= g[b];
    }
  }

  /** Older registers and slots of no variable are as they were. */
  predicate Left(c: Code, regs: Regs, slots: Slots, places: Places, at: Config) {
    at.At? && Agree(regs, at.regs, c.regs) && AgreeOutside(slots, at.slots, c.slots, Owned(places))
  }

  /** Where control goes when statements are left by `signal`, the normal way to `next`. */
  function Exit(loops: seq<(nat, nat)>, next: nat, signal: Signal): nat {
    if signal == Normal || loops == [] then next
    else if signal == Broke then loops[|loops| - 1].1
    else loops[|loops| - 1].0
  }

  /** The end of a block of statements: control is at the start of the right block. */
  ghost predicate Exits(
    c: Code, next: nat, regs: Regs, slots: Slots, places: Places, fuel: nat, r: Run, n: nat, at: Config)
  {
    match r
    case Wrong(fault) => at == Stuck || (at == Trapped && fault == IllTyped)
    case OutOfFuel => at.At? && n >= fuel
    case Ran(env, signal) =>
      if signal.Returned? then
        at.Halted? && at == Halted(signal.result, at.slots, env.trace) && Held(env.frames, places, at.slots)
      else
        (signal != Normal ==> c.loops != [])
        && Left(c, regs, slots, places, at)
        && at == At(Exit(c.loops, next, signal), 0, at.regs, at.slots, env.trace)
        && Held(env.frames, places, at.slots)
  }

  /** The end of a statement inside a block: normally, control is at the end of the code so far. */
  ghost predicate Lands(
    u: Unit, c: Code, d: Code, regs: Regs, slots: Slots, places: Places, later: Places, fuel: nat, r: Run, n: nat, at: Config)
    requires d.Valid()
  {
    match r
    case Wrong(fault) => at == Stuck || (at == Trapped && fault == IllTyped)
    case OutOfFuel => at.At? && n >= fuel
    case Ran(env, signal) =>
      Pop(later) == Pop(places) && |later| == |places| &&
      if signal.Returned? then
        at.Halted? && at == Halted(signal.result, at.slots, env.trace) && Held(env.frames, later, at.slots)
      else
        Left(c, regs, slots, places, at)
        && if signal == Normal then
          at == EndOf(d, at.regs, at.slots, env.trace) && !Terminated(d)
          && Aligned(u, d, env.frames, later, at.slots)
          && NewAbove(places, later, c.slots)
        else
          c.loops != []
          && at == At(Exit(c.loops, 0, signal), 0, at.regs, at.slots, env.trace)
          && Held(env.frames, later, at.slots)
  }

  /** The later places own no older slot that the earlier ones did not. */
  predicate NewAbove(places: Places, later: Places, n: nat) {
    forall s | s in Owned(later) && s < n :: s in Owned(places)
  }
}
