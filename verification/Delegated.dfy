/** Delegated resources and the generations that revoke them: kernel/src/capability/delegated.rs over
    kernel/src/capability/table.rs and kernel/src/capability/generation.rs. */
module Delegated {
  import opened Text

  /** The slots of the band, and the resource id of the first. */
  const DELEGATED_CAP: nat := 2048
  const DELEGATED_BASE: nat := 4096

  predicate IsDelegated(id: nat) { DELEGATED_BASE <= id < DELEGATED_BASE + DELEGATED_CAP }

  function SlotOf(id: nat): (slot: nat)
    requires IsDelegated(id)
    ensures slot < DELEGATED_CAP
  {
    id - DELEGATED_BASE
  }

  datatype Liveness = Alive | Revoked | Dead

  datatype ResourceRecord = ResourceRecord(generation: nat, liveness: Liveness)

  /** Who owns each slot, and the registry's records of the band, kept when a slot is freed. */
  datatype Core = Core(owners: seq<Option<nat>>, records: map<nat, ResourceRecord>)

  /** `bump_generation`: nothing for a resource never registered. */
  function Bumped(c: Core, slot: nat, liveness: Liveness): Core {
    if slot !in c.records then c
    else c.(records := c.records[slot := ResourceRecord(c.records[slot].generation + 1, liveness)])
  }

  /** `get_resource_generation` */
  function Generation(c: Core, slot: nat): Option<nat> {
    if slot in c.records then Some(c.records[slot].generation) else None
  }

  /** The generation to register at, after what was read: one up, or 0 the first time. */
  function Following(read: Option<nat>): nat { if read.None? then 0 else read.value + 1 }

  /** `register_resource_at_gen`: whatever the registry held. */
  function RegisteredAt(c: Core, slot: nat, generation: nat): Core {
    c.(records := c.records[slot := ResourceRecord(generation, Alive)])
  }

  /** A claimed slot registered for its new life, with nothing between the read and the write. */
  function Registered(c: Core, slot: nat): Core { RegisteredAt(c, slot, Following(Generation(c, slot))) }

  function Owned(c: Core, slot: nat, owner: Option<nat>): Core
    requires slot < |c.owners|
  {
    c.(owners := c.owners[slot := owner])
  }

  // --- histories ---

  /** How far a call that allocates has got. It holds no lock between these: its slot is claimed; the
      generation the registry had for the id is read; the id is registered and no capability is out yet. */
  datatype Stage = Claimed | Read(generation: Option<nat>) | Entered

  datatype Call = Call(slot: nat, stage: Stage)

  /** A capability to a slot, as minted: at a generation, in a life of the slot. */
  datatype Cap = Cap(slot: nat, generation: nat, life: nat)

  /** The core; the calls in progress, by the thread that makes them; slots taken from a dying owner and not
      yet marked dead; how often each slot was registered; every capability minted so far. */
  datatype State = State(core: Core, calls: map<nat, Call>, dying: multiset<nat>, lives: map<nat, nat>, caps: set<Cap>)

  function Lives(s: State, slot: nat): nat { if slot in s.lives then s.lives[slot] else 0 }

  /** What a core may do next. Every step takes one lock; between two of them anything may happen. An owner
      killed from another core loses its slots at once, even while a call of its own is in progress. */
  datatype Step =
    | Claim(thread: nat, owner: nat, slot: nat)
    | ReadGeneration(thread: nat)
    | Register(thread: nat)
    | Mint(thread: nat)
    | Release(thread: nat)
    | Revoke(slot: nat, caller: nat)
    | Take(slot: nat)
    | MarkDead(slot: nat)

  predicate At(s: State, thread: nat, slot: nat) { thread in s.calls && s.calls[thread].slot == slot }

  predicate Legal(s: State, step: Step) {
    match step
    case Claim(th, _, slot) => th !in s.calls && slot < |s.core.owners| && s.core.owners[slot].None?
    case ReadGeneration(th) => th in s.calls && s.calls[th].stage.Claimed?
    case Register(th) => th in s.calls && s.calls[th].stage.Read?
    case Mint(th) => th in s.calls && s.calls[th].stage.Entered?
    case Release(th) => th in s.calls && s.calls[th].stage.Entered? && s.calls[th].slot < |s.core.owners|
    case Revoke(slot, _) => slot < |s.core.owners|
    case Take(slot) => slot < |s.core.owners| && s.core.owners[slot].Some?
    case MarkDead(slot) => slot in s.dying
  }

  function Advanced(s: State, th: nat, stage: Stage): map<nat, Call>
    requires th in s.calls
  {
    s.calls[th := Call(s.calls[th].slot, stage)]
  }

  function After(s: State, step: Step): State
    requires Legal(s, step)
  {
    match step
    case Claim(th, owner, slot) =>
      s.(core := Owned(s.core, slot, Some(owner)), calls := s.calls[th := Call(slot, Claimed)])
    case ReadGeneration(th) => s.(calls := Advanced(s, th, Read(Generation(s.core, s.calls[th].slot))))
    case Register(th) =>
      var slot := s.calls[th].slot;
      s.(core := RegisteredAt(s.core, slot, Following(s.calls[th].stage.generation)),
         calls := Advanced(s, th, Entered),
         lives := s.lives[slot := Lives(s, slot) + 1])
    case Mint(th) =>
      var slot := s.calls[th].slot;
      var minted := if slot in s.core.records then {Cap(slot, s.core.records[slot].generation, Lives(s, slot))} else {};
      s.(calls := s.calls - {th}, caps := s.caps + minted)
    case Release(th) => s.(core := Owned(s.core, s.calls[th].slot, None), calls := s.calls - {th})
    case Revoke(slot, caller) =>
      if s.core.owners[slot] == Some(caller)
      then s.(core := Owned(Bumped(s.core, slot, Revoked), slot, None)) else s
    case Take(slot) => s.(core := Owned(s.core, slot, None), dying := s.dying + multiset{slot})
    case MarkDead(slot) => s.(core := Bumped(s.core, slot, Dead), dying := s.dying - multiset{slot})
  }

  ghost predicate LegalRun(s: State, steps: seq<Step>)
    decreases |steps|
  {
    steps == [] || (Legal(s, steps[0]) && LegalRun(After(s, steps[0]), steps[1..]))
  }

  function Run(s: State, steps: seq<Step>): State
    requires LegalRun(s, steps)
    decreases |steps|
  {
    if steps == [] then s else Run(After(s, steps[0]), steps[1..])
  }

  const START := State(Core(seq(DELEGATED_CAP, _ => None), map[]), map[], multiset{}, map[], {})

  /** A capability passes the generation check. */
  predicate Validates(s: State, cap: Cap) {
    cap.slot in s.core.records && s.core.records[cap.slot].generation == cap.generation
  }

  lemma RunCons(s: State, step: Step, steps: seq<Step>)
    ensures Legal(s, step) && LegalRun(After(s, step), steps) ==>
              LegalRun(s, [step] + steps) && Run(s, [step] + steps) == Run(After(s, step), steps)
  {
    assert ([step] + steps)[1..] == steps;
  }

  lemma {:induction false} RunConcat(s: State, a: seq<Step>, b: seq<Step>)
    requires LegalRun(s, a) && LegalRun(Run(s, a), b)
    ensures LegalRun(s, a + b) && Run(s, a + b) == Run(Run(s, a), b)
    decreases |a|
  {
    if a == [] {
      assert a + b == b;
    } else {
      assert (a + b)[1..] == a[1..] + b;
      RunConcat(After(s, a[0]), a[1..], b);
    }
  }

  lemma RunTwo(s: State, a: Step, b: Step)
    requires Legal(s, a) && Legal(After(s, a), b)
    ensures LegalRun(s, [a, b]) && Run(s, [a, b]) == After(After(s, a), b)
  {
    assert [a, b] == [a] + [b] && [b] == [b] + [];
    RunCons(After(s, a), b, []);
    RunCons(s, a, [b]);
  }

  lemma RunThree(s: State, a: Step, b: Step, c: Step)
    requires Legal(s, a) && Legal(After(s, a), b) && Legal(After(After(s, a), b), c)
    ensures LegalRun(s, [a, b, c]) && Run(s, [a, b, c]) == After(After(After(s, a), b), c)
  {
    assert [a, b, c] == [a] + [b, c];
    RunTwo(After(s, a), b, c);
    RunCons(s, a, [b, c]);
  }

  // --- generations count ---

  /** How often the slot has been moved on, as its generation tells it: 0 before it was ever registered. */
  function Serial(s: State, slot: nat): nat { Following(Generation(s.core, slot)) }

  /** The step gives the slot another life or ends the one it has. */
  predicate Ticks(s: State, step: Step, slot: nat)
    requires Legal(s, step)
  {
    || (step.Register? && s.calls[step.thread].slot == slot)
    || (step.MarkDead? && step.slot == slot && slot in s.core.records)
    || (step.Revoke? && step.slot == slot && slot in s.core.records && s.core.owners[slot] == Some(step.caller))
  }

  /** The step registers the slot on a generation it no longer has. */
  predicate Overtaken(s: State, step: Step, slot: nat)
    requires Legal(s, step)
  {
    step.Register? && s.calls[step.thread].slot == slot
    && s.calls[step.thread].stage.generation != Generation(s.core, slot)
  }

  function TickCount(s: State, steps: seq<Step>, slot: nat): nat
    requires LegalRun(s, steps)
    decreases |steps|
  {
    if steps == [] then 0
    else (if Ticks(s, steps[0], slot) then 1 else 0) + TickCount(After(s, steps[0]), steps[1..], slot)
  }

  /** Some registration of the slot in the run is overtaken. */
  ghost predicate Overtakes(s: State, steps: seq<Step>, slot: nat)
    requires LegalRun(s, steps)
    decreases |steps|
  {
    steps != [] && (Overtaken(s, steps[0], slot) || Overtakes(After(s, steps[0]), steps[1..], slot))
  }

  /** One step, one slot: the record stays, and unless the step is overtaken it counts. */
  lemma StepCounts(s: State, step: Step, slot: nat)
    requires Legal(s, step)
    ensures slot in s.core.records ==> slot in After(s, step).core.records
    ensures !Overtaken(s, step, slot) ==>
              Serial(After(s, step), slot) == Serial(s, slot) + if Ticks(s, step, slot) then 1 else 0
  {
  }

  lemma {:induction false} CountsUnlessOvertaken(s: State, steps: seq<Step>, slot: nat)
    requires LegalRun(s, steps) && !Overtakes(s, steps, slot)
    ensures Serial(Run(s, steps), slot) == Serial(s, slot) + TickCount(s, steps, slot)
    decreases |steps|
  {
    if steps != [] {
      StepCounts(s, steps[0], slot);
      CountsUnlessOvertaken(After(s, steps[0]), steps[1..], slot);
    }
  }

  /** Every generation read for the slot by a call in progress is one it had by the time it was moved on
      `n` times, and before that when the slot itself already lags behind. */
  ghost predicate ReadsWithin(s: State, slot: nat, n: nat) {
    && Serial(s, slot) <= n
    && forall th :: At(s, th, slot) && s.calls[th].stage.Read? ==>
         Following(s.calls[th].stage.generation) <= if Serial(s, slot) < n then n - 1 else n
  }

  /** A slot that lags behind its count goes on lagging. */
  lemma StepLags(s: State, step: Step, slot: nat, n: nat)
    requires Legal(s, step) && ReadsWithin(s, slot, n)
    ensures ReadsWithin(After(s, step), slot, n + if Ticks(s, step, slot) then 1 else 0)
    ensures Serial(s, slot) < n || Overtaken(s, step, slot) ==>
              Serial(After(s, step), slot) < n + if Ticks(s, step, slot) then 1 else 0
  {
    var t := After(s, step);
    forall th | At(t, th, slot) && t.calls[th].stage.Read?
      ensures At(s, th, slot)
      ensures s.calls[th].stage.Read? ==> t.calls[th] == s.calls[th]
    {
    }
  }

  lemma {:induction false} RunLags(s: State, steps: seq<Step>, slot: nat, n: nat)
    requires LegalRun(s, steps) && ReadsWithin(s, slot, n)
    ensures Serial(Run(s, steps), slot) <= n + TickCount(s, steps, slot)
    ensures Serial(s, slot) < n || Overtakes(s, steps, slot) ==>
              Serial(Run(s, steps), slot) < n + TickCount(s, steps, slot)
    decreases |steps|
  {
    if steps != [] {
      StepLags(s, steps[0], slot, n);
      RunLags(After(s, steps[0]), steps[1..], slot, n + if Ticks(s, steps[0], slot) then 1 else 0);
    }
  }

  /** Over every run the generation of a slot never runs ahead of the steps that moved it on, and it counts
      them exactly if and only if no registration was overtaken between its read and its write. */
  lemma GenerationCounts(steps: seq<Step>, slot: nat)
    requires LegalRun(START, steps)
    ensures Serial(Run(START, steps), slot) <= TickCount(START, steps, slot)
    ensures Serial(Run(START, steps), slot) == TickCount(START, steps, slot) <==> !Overtakes(START, steps, slot)
  {
    RunLags(START, steps, slot, 0);
    if !Overtakes(START, steps, slot) { CountsUnlessOvertaken(START, steps, slot); }
  }

  // --- no capability outlives its life ---

  /** A capability was minted at a generation the slot had, and in an earlier life below the present one. */
  predicate Dated(s: State, cap: Cap) {
    && cap.slot in s.core.records
    && cap.generation <= s.core.records[cap.slot].generation
    && cap.life <= Lives(s, cap.slot)
    && (cap.life < Lives(s, cap.slot) ==> cap.generation < s.core.records[cap.slot].generation)
  }

  /** Every capability to the slot is dated. */
  predicate AllDated(s: State, slot: nat) { forall cap :: cap in s.caps && cap.slot == slot ==> Dated(s, cap) }

  lemma StepDates(s: State, step: Step, cap: Cap)
    requires Legal(s, step) && !Overtaken(s, step, cap.slot) && Dated(s, cap)
    ensures Dated(After(s, step), cap)
  {
    StepCounts(s, step, cap.slot);
  }

  /** Every step but an overtaken registration keeps the capabilities of a slot dated. */
  lemma StepKeeps(s: State, step: Step, slot: nat)
    requires Legal(s, step) && !Overtaken(s, step, slot) && AllDated(s, slot)
    ensures AllDated(After(s, step), slot)
  {
    var t := After(s, step);
    forall cap | cap in t.caps && cap.slot == slot
      ensures Dated(t, cap)
    {
      if cap in s.caps { StepDates(s, step, cap); }
    }
  }

  lemma {:induction false} RunKeeps(s: State, steps: seq<Step>, slot: nat)
    requires LegalRun(s, steps) && !Overtakes(s, steps, slot) && AllDated(s, slot)
    ensures AllDated(Run(s, steps), slot)
    decreases |steps|
  {
    if steps != [] {
      StepKeeps(s, steps[0], slot);
      RunKeeps(After(s, steps[0]), steps[1..], slot);
    }
  }

  /** Over every run that overtakes no registration of the slot: a capability that passes the generation
      check was minted in the slot's present life; none from an earlier life of a reused id ever does. */
  lemma NoStaleLifeValidates(steps: seq<Step>, cap: Cap)
    requires LegalRun(START, steps) && cap in Run(START, steps).caps && Validates(Run(START, steps), cap)
    ensures cap.life == Lives(Run(START, steps), cap.slot) || Overtakes(START, steps, cap.slot)
  {
    if !Overtakes(START, steps, cap.slot) {
      RunKeeps(START, steps, cap.slot);
      assert Dated(Run(START, steps), cap);
    }
  }

  /** A capability that is good stays good while no step moves its slot on, and if no registration is
      overtaken, no longer. */
  lemma GoodUntilMovedOn(s: State, steps: seq<Step>, cap: Cap)
    requires LegalRun(s, steps) && Validates(s, cap)
    ensures TickCount(s, steps, cap.slot) == 0 ==> Validates(Run(s, steps), cap)
    ensures Validates(Run(s, steps), cap) ==> TickCount(s, steps, cap.slot) == 0 || Overtakes(s, steps, cap.slot)
  {
    if TickCount(s, steps, cap.slot) == 0 { NoTickNoOvertaking(s, steps, cap.slot); }
    if !Overtakes(s, steps, cap.slot) { CountsUnlessOvertaken(s, steps, cap.slot); }
  }

  lemma {:induction false} NoTickNoOvertaking(s: State, steps: seq<Step>, slot: nat)
    requires LegalRun(s, steps) && TickCount(s, steps, slot) == 0
    ensures !Overtakes(s, steps, slot)
    decreases |steps|
  {
    if steps != [] { NoTickNoOvertaking(After(s, steps[0]), steps[1..], slot); }
  }

  // --- when a dead capability stays dead ---

  /** The generation the slot has, and every one a call in progress may still register it at, is above `g`. */
  ghost predicate Above(s: State, slot: nat, g: nat) {
    && slot in s.core.records && s.core.records[slot].generation > g
    && forall th :: At(s, th, slot) && s.calls[th].stage.Read? ==> Following(s.calls[th].stage.generation) > g
  }

  lemma StepStaysAbove(s: State, step: Step, slot: nat, g: nat)
    requires Legal(s, step) && Above(s, slot, g)
    ensures Above(After(s, step), slot, g)
  {
    var t := After(s, step);
    forall th | At(t, th, slot) && t.calls[th].stage.Read?
      ensures Following(t.calls[th].stage.generation) > g
    {
      assert At(s, th, slot);
    }
    if step.Register? && s.calls[step.thread].slot == slot { assert At(s, step.thread, slot); }
  }

  lemma {:induction false} RunStaysAbove(s: State, steps: seq<Step>, slot: nat, g: nat)
    requires LegalRun(s, steps) && Above(s, slot, g)
    ensures Above(Run(s, steps), slot, g)
    decreases |steps|
  {
    if steps != [] {
      StepStaysAbove(s, steps[0], slot, g);
      RunStaysAbove(After(s, steps[0]), steps[1..], slot, g);
    }
  }

  lemma {:induction false} Bound(xs: set<nat>) returns (n: nat)
    ensures forall x :: x in xs ==> x < n
  {
    if xs == {} {
      n := 0;
    } else {
      var x :| x in xs;
      var m := Bound(xs - {x});
      n := if x < m then m else x + 1;
      assert forall y :: y in xs ==> y == x || y in xs - {x};
    }
  }

  /** A slot can always be moved on by one. */
  lemma MoveOn(s: State, slot: nat) returns (steps: seq<Step>)
    requires slot < |s.core.owners| && slot in s.core.records
    ensures LegalRun(s, steps) && |Run(s, steps).core.owners| == |s.core.owners|
    ensures slot in Run(s, steps).core.records
    ensures Run(s, steps).core.records[slot].generation == s.core.records[slot].generation + 1
  {
    if s.core.owners[slot].Some? {
      steps := [Take(slot), MarkDead(slot)];
      RunTwo(s, Take(slot), MarkDead(slot));
    } else {
      var th := Bound(s.calls.Keys);
      steps := [Claim(th, 0, slot), Take(slot), MarkDead(slot)];
      RunThree(s, Claim(th, 0, slot), Take(slot), MarkDead(slot));
    }
  }

  /** So it can be brought to any later generation. */
  lemma {:induction false} Reach(s: State, slot: nat, g: nat) returns (steps: seq<Step>)
    requires slot < |s.core.owners| && slot in s.core.records && s.core.records[slot].generation <= g
    ensures LegalRun(s, steps) && slot in Run(s, steps).core.records && Run(s, steps).core.records[slot].generation == g
    decreases g - s.core.records[slot].generation
  {
    if s.core.records[slot].generation == g {
      steps := [];
    } else {
      var first := MoveOn(s, slot);
      var rest := Reach(Run(s, first), slot, g);
      RunConcat(s, first, rest);
      steps := first + rest;
    }
  }

  /** A capability that some run brings to life. */
  lemma Revive(s: State, cap: Cap) returns (steps: seq<Step>)
    requires cap.slot < |s.core.owners| && cap.slot in s.core.records && !Above(s, cap.slot, cap.generation)
    ensures LegalRun(s, steps) && Validates(Run(s, steps), cap)
  {
    var slot, g := cap.slot, cap.generation;
    if s.core.records[slot].generation <= g {
      steps := Reach(s, slot, g);
    } else {
      var th :| At(s, th, slot) && s.calls[th].stage.Read? && Following(s.calls[th].stage.generation) <= g;
      var t := After(s, Register(th));
      var rest := Reach(t, slot, g);
      RunCons(s, Register(th), rest);
      steps := [Register(th)] + rest;
    }
  }

  /** No run makes the capability good. */
  ghost predicate DeadForGood(s: State, cap: Cap) {
    forall steps :: LegalRun(s, steps) ==> !Validates(Run(s, steps), cap)
  }

  /** Exactly when a capability is dead for good: when the slot is past its generation and no call in progress
      has read one from which it would register the slot at or below it. */
  lemma DeadForGoodExactly(s: State, cap: Cap)
    requires cap.slot < |s.core.owners| && cap.slot in s.core.records
    ensures DeadForGood(s, cap) <==> Above(s, cap.slot, cap.generation)
  {
    if Above(s, cap.slot, cap.generation) {
      forall steps | LegalRun(s, steps)
        ensures !Validates(Run(s, steps), cap)
      {
        RunStaysAbove(s, steps, cap.slot, cap.generation);
      }
    } else {
      var steps := Revive(s, cap);
    }
  }

  /** A step that moves a slot on, other than by registering it, ends every capability minted before: for good
      if and only if no allocation of the slot is in progress on a generation read below the capability's. */
  lemma RevokedForGood(s: State, step: Step, cap: Cap)
    requires Legal(s, step) && Ticks(s, step, cap.slot) && !step.Register?
    requires cap.slot < |s.core.owners| && Dated(s, cap)
    ensures !Validates(After(s, step), cap)
    ensures DeadForGood(After(s, step), cap) <==>
            forall th :: At(s, th, cap.slot) && s.calls[th].stage.Read? ==>
              Following(s.calls[th].stage.generation) > cap.generation
  {
    StepCounts(s, step, cap.slot);
    DeadForGoodExactly(After(s, step), cap);
    assert forall th :: At(After(s, step), th, cap.slot) <==> At(s, th, cap.slot);
  }

  /** A registration opens a life in which no capability of an earlier one is ever good, if and only if what
      it read, and what every other call in progress on the slot read, is at or above the capability's
      generation. */
  lemma NewLifeIsClean(s: State, th: nat, cap: Cap)
    requires Legal(s, Register(th)) && s.calls[th].slot == cap.slot < |s.core.owners|
    ensures DeadForGood(After(s, Register(th)), cap) <==>
            forall u :: At(s, u, cap.slot) && s.calls[u].stage.Read? ==>
              Following(s.calls[u].stage.generation) > cap.generation
  {
    var t := After(s, Register(th));
    DeadForGoodExactly(t, cap);
    assert At(s, th, cap.slot);
    assert forall u :: u != th ==> (At(t, u, cap.slot) <==> At(s, u, cap.slot));
  }

  // --- what others can do to a live owner ---

  /** The owner of the slot neither revokes it nor dies. */
  predicate LeavesAlone(steps: seq<Step>, slot: nat, owner: nat) {
    Revoke(slot, owner) !in steps && Take(slot) !in steps
  }

  /** No death mark is due on the slot, and no call is in progress on it. */
  ghost predicate Undisputed(s: State, slot: nat) { slot !in s.dying && forall th :: !At(s, th, slot) }

  lemma UndisputedStep(s: State, step: Step, owner: nat, slot: nat)
    requires slot < |s.core.owners| && s.core.owners[slot] == Some(owner) && slot in s.core.records
    requires Undisputed(s, slot) && Legal(s, step) && step != Revoke(slot, owner) && step != Take(slot)
    ensures var t := After(s, step);
            && slot < |t.core.owners| && t.core.owners[slot] == Some(owner) && slot in t.core.records
            && t.core.records[slot] == s.core.records[slot] && Undisputed(t, slot)
  {
    var t := After(s, step);
    if step.Register? || step.Release? { assert !At(s, step.thread, slot); }
    forall th
      ensures !At(t, th, slot)
    {
      assert !At(s, th, slot);
    }
  }

  lemma {:induction false} UndisputedStays(s: State, steps: seq<Step>, owner: nat, cap: Cap)
    requires cap.slot < |s.core.owners| && s.core.owners[cap.slot] == Some(owner) && Validates(s, cap)
    requires Undisputed(s, cap.slot) && LegalRun(s, steps) && LeavesAlone(steps, cap.slot, owner)
    ensures Validates(Run(s, steps), cap)
    decreases |steps|
  {
    if steps != [] {
      assert steps[0] in steps && forall step :: step in steps[1..] ==> step in steps;
      UndisputedStep(s, steps[0], owner, cap.slot);
      UndisputedStays(After(s, steps[0]), steps[1..], owner, cap);
    }
  }

  /** A call that has nothing to do with the owner frees its slot and has it registered again. */
  lemma ReleaseAndReuse(s: State, th: nat, slot: nat) returns (steps: seq<Step>)
    requires slot < |s.core.owners| && At(s, th, slot) && s.calls[th].stage.Entered? && slot in s.core.records
    ensures LegalRun(s, steps) && (forall o :: LeavesAlone(steps, slot, o))
    ensures Serial(Run(s, steps), slot) == Serial(s, slot) + 1
  {
    steps := [Release(th)] + [Claim(th, 0, slot), ReadGeneration(th), Register(th)];
    RunThree(After(s, Release(th)), Claim(th, 0, slot), ReadGeneration(th), Register(th));
    RunCons(s, Release(th), [Claim(th, 0, slot), ReadGeneration(th), Register(th)]);
  }

  lemma Dispute(s: State, cap: Cap) returns (steps: seq<Step>)
    requires cap.slot < |s.core.owners| && Validates(s, cap) && !Undisputed(s, cap.slot)
    ensures LegalRun(s, steps) && (forall o :: LeavesAlone(steps, cap.slot, o))
    ensures !Validates(Run(s, steps), cap)
  {
    var slot := cap.slot;
    if slot in s.dying {
      steps := [MarkDead(slot)] + [];
      RunCons(s, MarkDead(slot), []);
    } else {
      var th :| At(s, th, slot);
      if s.calls[th].stage.Claimed? {
        steps := [ReadGeneration(th), Register(th)];
        RunTwo(s, ReadGeneration(th), Register(th));
      } else if s.calls[th].stage.Entered? {
        steps := ReleaseAndReuse(s, th, slot);
      } else if Following(s.calls[th].stage.generation) != cap.generation {
        steps := [Register(th)] + [];
        RunCons(s, Register(th), []);
      } else {
        var rest := ReleaseAndReuse(After(s, Register(th)), th, slot);
        steps := [Register(th)] + rest;
        RunCons(s, Register(th), rest);
        forall o
          ensures LeavesAlone(steps, slot, o)
        {
          assert LeavesAlone(rest, slot, o);
        }
      }
    }
  }

  /** Exactly when a live owner's capability stays good as long as the owner neither revokes it nor dies: when the
      slot awaits no death mark and no call on it is in progress, an earlier owner's or the owner's own. */
  lemma OnlyTheOwnerEnds(s: State, owner: nat, cap: Cap)
    requires cap.slot < |s.core.owners| && s.core.owners[cap.slot] == Some(owner) && Validates(s, cap)
    ensures (forall steps :: LegalRun(s, steps) && LeavesAlone(steps, cap.slot, owner) ==>
        Validates(Run(s, steps), cap))
        <==> Undisputed(s, cap.slot)
  {
    if Undisputed(s, cap.slot) {
      forall steps | LegalRun(s, steps) && LeavesAlone(steps, cap.slot, owner)
        ensures Validates(Run(s, steps), cap)
      {
        UndisputedStays(s, steps, owner, cap);
      }
    } else {
      var steps := Dispute(s, cap);
      assert LeavesAlone(steps, cap.slot, owner);
    }
  }

  // --- runs that show it ---

  /** One whole life: allocated and handed out with nothing in between. */
  function Lifetime(th: nat, owner: nat, slot: nat): seq<Step> {
    [Claim(th, owner, slot), ReadGeneration(th), Register(th)] + [Mint(th)]
  }

  /** Left alone, the three locked steps of an allocation register the slot one generation up. */
  lemma AllocatesAlone(s: State, th: nat, owner: nat, slot: nat)
    requires slot < |s.core.owners| && s.core.owners[slot].None? && th !in s.calls
    ensures var steps := [Claim(th, owner, slot), ReadGeneration(th), Register(th)];
            && LegalRun(s, steps)
            && Run(s, steps) == s.(core := Registered(Owned(s.core, slot, Some(owner)), slot),
                                   calls := s.calls[th := Call(slot, Entered)],
                                   lives := s.lives[slot := Lives(s, slot) + 1])
  {
    RunThree(s, Claim(th, owner, slot), ReadGeneration(th), Register(th));
  }

  lemma LifetimeRuns(s: State, th: nat, owner: nat, slot: nat)
    requires slot < |s.core.owners| && s.core.owners[slot].None? && th !in s.calls
    ensures LegalRun(s, Lifetime(th, owner, slot))
    ensures Run(s, Lifetime(th, owner, slot)) ==
            s.(core := Registered(Owned(s.core, slot, Some(owner)), slot),
               lives := s.lives[slot := Lives(s, slot) + 1],
               caps := s.caps + {Cap(slot, Serial(s, slot), Lives(s, slot) + 1)})
  {
    AllocatesAlone(s, th, owner, slot);
    var t := Run(s, [Claim(th, owner, slot), ReadGeneration(th), Register(th)]);
    RunCons(t, Mint(th), []);
    assert [Mint(th)] + [] == [Mint(th)];
    RunConcat(s, [Claim(th, owner, slot), ReadGeneration(th), Register(th)], [Mint(th)]);
    assert t.calls - {th} == s.calls;
  }

  /** An id in two lives: the capability of the first is dead once revoked, and stays dead when the same
      slot is handed to another owner whose own capability is good. */
  lemma ReusedIdExample(first: nat, second: nat)
    ensures var steps := Lifetime(1, first, 0) + ([Revoke(0, first)] + Lifetime(1, second, 0));
            && LegalRun(START, steps)
            && var end := Run(START, steps);
            && end.caps == {Cap(0, 0, 1), Cap(0, 2, 2)}
            && !Validates(end, Cap(0, 0, 1)) && Validates(end, Cap(0, 2, 2))
  {
    LifetimeRuns(START, 1, first, 0);
    var s := Run(START, Lifetime(1, first, 0));
    LifetimeRuns(After(s, Revoke(0, first)), 1, second, 0);
    RunCons(s, Revoke(0, first), Lifetime(1, second, 0));
    RunConcat(START, Lifetime(1, first, 0), [Revoke(0, first)] + Lifetime(1, second, 0));
  }

  /** An owner killed while it allocates: its slot goes to another, whose capability is revoked; then the
      registration it had under way lands on the generation it had read, and the revoked capability of the
      earlier life is good again. */
  lemma OvertakenExample(killed: nat, other: nat)
    ensures var steps := [Claim(1, killed, 0), ReadGeneration(1), Take(0)]
                         + (Lifetime(2, other, 0) + [Revoke(0, other), Register(1)]);
            && LegalRun(START, steps)
            && var end := Run(START, steps);
            && Cap(0, 0, 1) in end.caps && Validates(end, Cap(0, 0, 1)) && Lives(end, 0) == 2
  {
    var a, c := [Claim(1, killed, 0), ReadGeneration(1), Take(0)], [Revoke(0, other), Register(1)];
    RunThree(START, Claim(1, killed, 0), ReadGeneration(1), Take(0));
    var s := Run(START, a);
    LifetimeRuns(s, 2, other, 0);
    var t := Run(s, Lifetime(2, other, 0));
    RunTwo(t, Revoke(0, other), Register(1));
    RunConcat(s, Lifetime(2, other, 0), c);
    RunConcat(START, a, Lifetime(2, other, 0) + c);
  }

  /** Handing out a slot that still awaits its death mark: the mark ends the new owner's capability. */
  lemma LateMark(s: State, th: nat, live: nat, slot: nat)
    requires slot < |s.core.owners| && s.core.owners[slot].None? && th !in s.calls && slot in s.dying
    ensures var steps := Lifetime(th, live, slot) + [MarkDead(slot)];
            && LegalRun(s, steps)
            && var end, cap := Run(s, steps), Cap(slot, Serial(s, slot), Lives(s, slot) + 1);
            && cap in end.caps && !Validates(end, cap)
            && slot < |end.core.owners| && end.core.owners[slot] == Some(live)
  {
    LifetimeRuns(s, th, live, slot);
    var t := Run(s, Lifetime(th, live, slot));
    RunCons(t, MarkDead(slot), []);
    assert [MarkDead(slot)] + [] == [MarkDead(slot)];
    RunConcat(s, Lifetime(th, live, slot), [MarkDead(slot)]);
  }

  /** A slot taken from a dead owner goes to a live one before it is marked dead: the mark then ends the live
      owner's capability, though the owner did nothing and still holds the slot. */
  lemma LateMarkExample(dead: nat, live: nat)
    ensures var steps := (Lifetime(1, dead, 0) + [Take(0)]) + (Lifetime(2, live, 0) + [MarkDead(0)]);
            && LegalRun(START, steps)
            && var end := Run(START, steps);
            && Cap(0, 1, 2) in end.caps && !Validates(end, Cap(0, 1, 2))
            && 0 < |end.core.owners| && end.core.owners[0] == Some(live)
  {
    LifetimeRuns(START, 1, dead, 0);
    var s := Run(START, Lifetime(1, dead, 0));
    RunCons(s, Take(0), []);
    assert [Take(0)] + [] == [Take(0)];
    RunConcat(START, Lifetime(1, dead, 0), [Take(0)]);
    LateMark(After(s, Take(0)), 2, live, 0);
    RunConcat(START, Lifetime(1, dead, 0) + [Take(0)], Lifetime(2, live, 0) + [MarkDead(0)]);
  }

  // --- the band ---

  /** The slot `off` places after the cursor, wrapping. */
  function Around(next: nat, off: nat): (r: nat)
    ensures r < DELEGATED_CAP
  {
    (next + off) % DELEGATED_CAP
  }

  lemma AroundReaches(next: nat, slot: nat) returns (off: nat)
    requires next < DELEGATED_CAP && slot < DELEGATED_CAP
    ensures off < DELEGATED_CAP && Around(next, off) == slot
  {
    off := if next <= slot then slot - next else slot + DELEGATED_CAP - next;
  }

  /** The number of slots among the first `n` that `owner` holds. */
  function Holdings(owners: seq<Option<nat>>, owner: nat, n: nat): nat
    requires n <= |owners|
  {
    if n == 0 then 0 else Holdings(owners, owner, n - 1) + if owners[n - 1] == Some(owner) then 1 else 0
  }

  /** The first `n` slots reclaimed from a dead owner: each of its slots free and its resource dead. */
  function Reclaimed(c: Core, owner: nat, n: nat): (r: Core)
    requires n <= |c.owners|
    ensures |r.owners| == |c.owners|
  {
    if n == 0 then c
    else
      var done := Reclaimed(c, owner, n - 1);
      if c.owners[n - 1] == Some(owner) then Bumped(Owned(done, n - 1, None), n - 1, Dead) else done
  }

  /** Reclaiming takes every slot of the owner and no other, and marks exactly those resources. */
  lemma {:induction false} ReclaimedExactly(c: Core, owner: nat, n: nat, slot: nat)
    requires n <= |c.owners| && slot < |c.owners|
    ensures var r, mine := Reclaimed(c, owner, n), slot < n && c.owners[slot] == Some(owner);
            && r.owners[slot] == (if mine then None else c.owners[slot])
            && (slot in r.records <==> slot in c.records)
            && (slot in c.records ==>
                  r.records[slot] == if mine then ResourceRecord(c.records[slot].generation + 1, Dead)
                      else c.records[slot])
  {
    if n > 0 { ReclaimedExactly(c, owner, n - 1, slot); }
  }

  /** Slots the owner does not hold add nothing. */
  lemma {:induction false} ReclaimedSkips(c: Core, owner: nat, k: nat, n: nat)
    requires k <= n <= |c.owners|
    requires forall i :: k <= i < n ==> c.owners[i] != Some(owner)
    ensures Reclaimed(c, owner, n) == Reclaimed(c, owner, k)
    ensures Holdings(c.owners, owner, n) == Holdings(c.owners, owner, k)
  {
    if k < n { ReclaimedSkips(c, owner, k, n - 1); }
  }

  class Band {
    const owner: array<Option<nat>>
    var next: nat
    var records: map<nat, ResourceRecord>

    ghost predicate Valid()
      reads this
    {
      owner.Length == DELEGATED_CAP && next < DELEGATED_CAP
    }

    ghost function Abs(): Core
      reads this, owner
    {
      Core(owner[..], records)
    }

    constructor ()
      ensures Valid() && fresh(owner) && Abs() == START.core
    {
      owner, next, records := new Option<nat>[DELEGATED_CAP](_ => None), 0, map[];
      new;
      assert owner[..] == START.core.owners;
    }

    /** `claim`: the next free slot at or after the cursor, if there is one. */
    method Claim(who: nat) returns (slot: Option<nat>)
      requires Valid()
      modifies this`next, owner
      ensures Valid()
      ensures slot.None? <==> forall i :: 0 <= i < DELEGATED_CAP ==> old(owner[i]).Some?
      ensures slot.None? ==> Abs() == old(Abs())
      ensures slot.Some? ==>
                && slot.value < DELEGATED_CAP && old(owner[slot.value]).None?
                && Abs() == Owned(old(Abs()), slot.value, Some(who))
    {
      for off := 0 to DELEGATED_CAP
        invariant next == old(next) && owner[..] == old(owner[..])
        invariant forall o :: 0 <= o < off ==> owner[Around(next, o)].Some?
      {
        var i := Around(next, off);
        if owner[i].None? {
          owner[i] := Some(who);
          next := (i + 1) % DELEGATED_CAP;
          return Some(i);
        }
      }
      forall i | 0 <= i < DELEGATED_CAP
        ensures owner[i].Some?
      {
        var off := AroundReaches(next, i);
      }
      return None;
    }

    method ReadRecord(slot: nat) returns (generation: Option<nat>)
      requires Valid()
      ensures generation == Generation(Abs(), slot)
    {
      generation := if slot in records then Some(records[slot].generation) else None;
    }

    method RegisterAt(slot: nat, generation: nat)
      requires Valid()
      modifies this`records
      ensures Valid() && Abs() == RegisteredAt(old(Abs()), slot, generation)
    {
      records := records[slot := ResourceRecord(generation, Alive)];
    }

    /** `allocate`, with no other core at work between its locks. */
    method Allocate(who: nat) returns (slot: Option<nat>)
      requires Valid()
      modifies this`next, this`records, owner
      ensures Valid()
      ensures slot.None? <==> forall i :: 0 <= i < DELEGATED_CAP ==> old(owner[i]).Some?
      ensures slot.None? ==> Abs() == old(Abs())
      ensures slot.Some? ==>
                && slot.value < DELEGATED_CAP && old(owner[slot.value]).None?
                && Abs() == Registered(Owned(old(Abs()), slot.value, Some(who)), slot.value)
    {
      slot := Claim(who);
      if slot.Some? {
        var read := ReadRecord(slot.value);
        RegisterAt(slot.value, Following(read));
      }
    }

    method Bump(slot: nat, liveness: Liveness)
      requires Valid()
      modifies this`records
      ensures Valid() && Abs() == Bumped(old(Abs()), slot, liveness)
    {
      if slot in records {
        records := records[slot := ResourceRecord(records[slot].generation + 1, liveness)];
      }
    }

    /** `revoke_owned`: nothing for an id outside the band or another's. */
    method RevokeOwned(id: nat, caller: nat) returns (ok: bool)
      requires Valid()
      modifies this`records, owner
      ensures Valid() && ok == (IsDelegated(id) && old(owner[SlotOf(id)]) == Some(caller))
      ensures Abs() == if ok then Owned(Bumped(old(Abs()), SlotOf(id), Revoked), SlotOf(id), None) else old(Abs())
    {
      if !IsDelegated(id) { return false; }
      var slot := SlotOf(id);
      if owner[slot] != Some(caller) { return false; }
      Bump(slot, Revoked);
      owner[slot] := None;
      return true;
    }

    /** `take_one_owned`: the first slot the owner holds, freed. */
    method TakeOneOwned(who: nat) returns (slot: Option<nat>)
      requires Valid()
      modifies owner
      ensures Valid()
      ensures slot.None? ==> Abs() == old(Abs()) && forall i :: 0 <= i < DELEGATED_CAP ==> old(owner[i]) != Some(who)
      ensures slot.Some? ==>
                && slot.value < DELEGATED_CAP && old(owner[slot.value]) == Some(who)
                && (forall i :: 0 <= i < slot.value ==> old(owner[i]) != Some(who))
                && Abs() == Owned(old(Abs()), slot.value, None)
    {
      for i := 0 to DELEGATED_CAP
        invariant owner[..] == old(owner[..])
        invariant forall j :: 0 <= j < i ==> owner[j] != Some(who)
      {
        if owner[i] == Some(who) {
          owner[i] := None;
          return Some(i);
        }
      }
      return None;
    }

    /** `release_owner`: everything a dead owner held, and how much that was. */
    method ReleaseOwner(who: nat) returns (freed: nat)
      requires Valid()
      modifies this`records, owner
      ensures Valid() && Abs() == Reclaimed(old(Abs()), who, DELEGATED_CAP)
      ensures freed == Holdings(old(owner[..]), who, DELEGATED_CAP)
    {
      freed := 0;
      ghost var was, k := Abs(), 0;
      while true
        invariant Valid() && k <= DELEGATED_CAP == |was.owners|
        invariant Abs() == Reclaimed(was, who, k) && freed == Holdings(was.owners, who, k)
        decreases DELEGATED_CAP - k
      {
        var slot := TakeOneOwned(who);
        if slot.None? {
          NothingLeft(was, who, k);
          break;
        }
        NextTaken(was, who, k, slot.value);
        Bump(slot.value, Dead);
        freed := freed + 1;
        k := slot.value + 1;
      }
    }
  }

  /** What the owner still holds once its first `k` slots are reclaimed. */
  lemma ReclaimedOwners(was: Core, who: nat, k: nat)
    requires k <= |was.owners|
    ensures forall i :: 0 <= i < |was.owners| ==>
              Reclaimed(was, who, k).owners[i] == if i < k && was.owners[i] == Some(who) then None else was.owners[i]
  {
    forall i | 0 <= i < |was.owners|
      ensures Reclaimed(was, who, k).owners[i] == if i < k && was.owners[i] == Some(who) then None else was.owners[i]
    {
      ReclaimedExactly(was, who, k, i);
    }
  }

  /** Nothing left to take: everything is reclaimed. */
  lemma NothingLeft(was: Core, who: nat, k: nat)
    requires k <= |was.owners|
    requires forall i :: 0 <= i < |was.owners| ==> Reclaimed(was, who, k).owners[i] != Some(who)
    ensures Reclaimed(was, who, k) == Reclaimed(was, who, |was.owners|)
    ensures Holdings(was.owners, who, k) == Holdings(was.owners, who, |was.owners|)
  {
    ReclaimedOwners(was, who, k);
    ReclaimedSkips(was, who, k, |was.owners|);
  }

  /** The first slot left to take is the next one the owner held. */
  lemma NextTaken(was: Core, who: nat, k: nat, slot: nat)
    requires k <= |was.owners| && slot < |was.owners|
    requires Reclaimed(was, who, k).owners[slot] == Some(who)
    requires forall i :: 0 <= i < slot ==> Reclaimed(was, who, k).owners[i] != Some(who)
    ensures k <= slot
    ensures Reclaimed(was, who, slot + 1) == Bumped(Owned(Reclaimed(was, who, k), slot, None), slot, Dead)
    ensures Holdings(was.owners, who, slot + 1) == Holdings(was.owners, who, k) + 1
  {
    ReclaimedOwners(was, who, k);
    ReclaimedSkips(was, who, k, slot);
  }
}
