/** The read-first buffer as a protocol: two slots, the index of the slot being read, and a
    shared mutex. Readers hold the mutex shared while they look. A writer copies the read slot
    into the other one under the shared lock, then writes to that one without any lock, and
    takes the mutex exclusively only to switch the index. Copying and writing a slot are not
    atomic: in between, its contents may be anything. Readers come and go at any time; writers
    come one at a time. */
module DoubleBuffer {
  import opened Bytes

  /** What the current writer is doing. */
  datatype Phase = Idle | Copying | Copied | Writing | Exclusive | Switched

  datatype State<T> = State(
    readId: nat,
    buffer: (T, T),
    phase: Phase,
    /** The readers holding the mutex, and what each saw when it got it. */
    readers: map<nat, T>,
    /** Every value committed so far, the initial one first. */
    committed: seq<T>,
    /** What the current writer's slot held when its copy was done. */
    start: T,
    /** For each finished write, what it started from. */
    starts: seq<T>)

  datatype Step<T> =
    | ReaderLock(reader: nat)
    | ReaderUnlock(reader: nat)
    | WriterLockShared
    | CopySome(torn: T)
    | CopyAll
    | WriterUnlockShared
    | Write(value: T)
    | WriterLock
    | Switch
    | WriterUnlock

  function Slot<T>(s: State<T>, i: nat): T {
    if i == 0 then s.buffer.0 else s.buffer.1
  }

  function Store<T>(s: State<T>, i: nat, x: T): State<T> {
    s.(buffer := if i == 0 then (x, s.buffer.1) else (s.buffer.0, x))
  }

  function Back<T>(s: State<T>): nat {
    if s.readId == 0 then 1 else 0
  }

  /** What a reader looking now would see. */
  function Visible<T>(s: State<T>): T {
    Slot(s, s.readId)
  }

  function Fresh<T>(init: T): State<T> {
    State(0, (init, init), Idle, map[], [init], init, [])
  }

  // ---------- the mutex ----------

  predicate HeldExclusively<T>(s: State<T>) {
    s.phase.Exclusive? || s.phase.Switched?
  }

  predicate HeldShared<T>(s: State<T>) {
    s.readers.Keys != {} || s.phase.Copying? || s.phase.Copied?
  }

  predicate Enabled<T>(s: State<T>, step: Step<T>) {
    match step
    case ReaderLock(r) => !HeldExclusively(s) && r !in s.readers
    case ReaderUnlock(r) => r in s.readers
    case WriterLockShared => s.phase.Idle? && !HeldExclusively(s)
    case CopySome(_) => s.phase.Copying?
    case CopyAll => s.phase.Copying?
    case WriterUnlockShared => s.phase.Copied?
    case Write(_) => s.phase.Writing?
    case WriterLock => s.phase.Writing? && !HeldShared(s)
    case Switch => s.phase.Exclusive?
    case WriterUnlock => s.phase.Switched?
  }

  function Apply<T>(s: State<T>, step: Step<T>): State<T>
    requires Enabled(s, step)
  {
    match step
    case ReaderLock(r) => s.(readers := s.readers[r := Visible(s)])
    case ReaderUnlock(r) => s.(readers := s.readers - {r})
    case WriterLockShared => s.(phase := Copying)
    case CopySome(torn) => Store(s, Back(s), torn)
    case CopyAll => Store(s, Back(s), Visible(s)).(phase := Copied)
    case WriterUnlockShared => s.(phase := Writing, start := Slot(s, Back(s)))
    case Write(value) => Store(s, Back(s), value)
    case WriterLock => s.(phase := Exclusive)
    case Switch =>
      s.(phase := Switched, readId := Back(s), committed := s.committed + [Slot(s, Back(s))],
         starts := s.starts + [s.start])
    case WriterUnlock => s.(phase := Idle)
  }

  // ---------- what every step keeps ----------

  ghost predicate Inv<T>(s: State<T>) {
    && (s.readId == 0 || s.readId == 1)
    && s.committed != []
    && Visible(s) == s.committed[|s.committed| - 1]
    && (forall r :: r in s.readers ==> s.readers[r] == Visible(s))
    && (HeldExclusively(s) ==> s.readers.Keys == {})
    && (s.phase.Copied? ==> Slot(s, Back(s)) == Visible(s))
    && (s.phase.Writing? || s.phase.Exclusive? ==> s.start == Visible(s))
    && |s.starts| == |s.committed| - 1
    && (forall k :: 0 <= k < |s.starts| ==> s.starts[k] == s.committed[k])
  }

  lemma {:induction false} StepKeepsInv<T>(s: State<T>, step: Step<T>)
    requires Inv(s) && Enabled(s, step)
    ensures Inv(Apply(s, step))
  {
  }

  ghost predicate Allowed<T>(init: T, steps: seq<Step<T>>)
    decreases |steps|, 0
  {
    steps == [] ||
    var last := |steps| - 1;
    Allowed(init, steps[..last]) && Enabled(After(init, steps[..last]), steps[last])
  }

  ghost function After<T>(init: T, steps: seq<Step<T>>): (s: State<T>)
    requires Allowed(init, steps)
    ensures Inv(s) && s.committed[0] == init
    decreases |steps|, 1
  {
    if steps == [] then Fresh(init)
    else
      var last := |steps| - 1;
      StepKeepsInv(After(init, steps[..last]), steps[last]);
      Apply(After(init, steps[..last]), steps[last])
  }

  /** Under every interleaving, at every moment: each reader holding the mutex sees the value it
      saw when it got it, and that is the last whole value committed, whatever half-copied or
      half-written contents the other slot has. */
  lemma {:induction false} ReadersSeeTheLastCommit<T>(init: T, steps: seq<Step<T>>, reader: nat)
    requires Allowed(init, steps) && reader in After(init, steps).readers
    ensures var s := After(init, steps);
      Visible(s) == s.readers[reader] == s.committed[|s.committed| - 1]
  {
    assert Inv(After(init, steps));
  }

  /** While a reader holds the mutex the visible value does not change: a step either keeps it
      or is the switch, and there is no switch while anybody reads. */
  lemma {:induction false} HeldValueIsStable<T>(s: State<T>, step: Step<T>, reader: nat)
    requires Inv(s) && Enabled(s, step) && reader in s.readers
    ensures Visible(Apply(s, step)) == Visible(s)
    ensures reader in Apply(s, step).readers ==> Apply(s, step).readers[reader] == s.readers[reader]
    ensures step != ReaderUnlock(reader) ==> reader in Apply(s, step).readers
  {
  }

  /** Under every interleaving no write is lost: the committed values are those the writers wrote
      (`Meant`), and form a chain in which each write started from the value committed just
      before it. */
  lemma {:induction false} NoWriteIsLost<T>(init: T, steps: seq<Step<T>>)
    requires Allowed(init, steps)
    ensures var s := After(init, steps);
      && s.committed == Meant(init, steps).committed && s.committed[0] == init
      && |s.committed| == |s.starts| + 1
      && forall k :: 0 <= k < |s.starts| ==> s.starts[k] == s.committed[k]
  {
    WritesAreCommitted(init, steps);
    assert Inv(After(init, steps));
  }

  // ---------- what was written is what is committed ----------

  /** The values committed so far, and what the current writer would commit now. */
  datatype Meaning<T> = Meaning(committed: seq<T>, draft: T)

  /** A run read as a single-threaded program: a copy starts a draft from the last committed
      value, each write replaces the draft, and the switch commits it. */
  function Meant<T>(init: T, steps: seq<Step<T>>): (m: Meaning<T>)
    ensures m.committed != []
  {
    if steps == [] then Meaning([init], init)
    else
      var m := Meant(init, steps[..|steps| - 1]);
      match steps[|steps| - 1]
      case CopyAll => m.(draft := m.committed[|m.committed| - 1])
      case Write(value) => m.(draft := value)
      case Switch => m.(committed := m.committed + [m.draft])
      case _ => m
  }

  ghost predicate Realizes<T>(s: State<T>, m: Meaning<T>) {
    && s.committed == m.committed
    && (s.phase.Copied? || s.phase.Writing? || s.phase.Exclusive? ==> Slot(s, Back(s)) == m.draft)
  }

  lemma {:induction false} StepIsMeant<T>(init: T, steps: seq<Step<T>>)
    requires Allowed(init, steps) && steps != []
    requires Realizes(After(init, steps[..|steps| - 1]), Meant(init, steps[..|steps| - 1]))
    ensures Realizes(After(init, steps), Meant(init, steps))
  {
    var s, step := After(init, steps[..|steps| - 1]), steps[|steps| - 1];
    assert Inv(s) && After(init, steps) == Apply(s, step);
  }

  lemma {:induction false} RunIsMeant<T>(init: T, steps: seq<Step<T>>)
    requires Allowed(init, steps)
    ensures Realizes(After(init, steps), Meant(init, steps))
    decreases |steps|
  {
    if steps != [] {
      RunIsMeant(init, steps[..|steps| - 1]);
      StepIsMeant(init, steps);
    }
  }

  /** Under every interleaving the values committed are those of the single-threaded reading: each
      is the last one written since its writer's copy, or the one it started from where nothing
      was written. So what a reader sees at any moment is the last of them. */
  lemma {:induction false} WritesAreCommitted<T>(init: T, steps: seq<Step<T>>)
    requires Allowed(init, steps)
    ensures var s, m := After(init, steps), Meant(init, steps);
      && s.committed == m.committed && Visible(s) == m.committed[|m.committed| - 1]
      && forall r :: r in s.readers ==> s.readers[r] == m.committed[|m.committed| - 1]
  {
    RunIsMeant(init, steps);
    assert Inv(After(init, steps));
  }

  /** In the middle of a copy, or of a write, the slot that is not read may hold anything, and the
      one that is read keeps its value. */
  lemma {:induction false} HiddenSlotHoldsAnything<T>(init: T, steps: seq<Step<T>>, step: Step<T>, torn: T)
    requires Allowed(init, steps + [step]) && (step == CopySome(torn) || step == Write(torn))
    ensures Allowed(init, steps)
    ensures var s, s' := After(init, steps), After(init, steps + [step]);
      && s'.readId == s.readId
      && s'.buffer == (if s.readId == 0 then (s.buffer.0, torn) else (torn, s.buffer.1))
  {
    assert (steps + [step])[..|steps|] == steps;
    assert Inv(After(init, steps));
  }

  // ---------- which steps are possible ----------

  predicate IsWriters<T>(step: Step<T>) {
    !step.ReaderLock? && !step.ReaderUnlock?
  }

  /** The writer's last step so far. */
  function LastOfWriter<T>(steps: seq<Step<T>>): (last: Option<Step<T>>)
    ensures last.Some? ==> IsWriters(last.value)
  {
    if steps == [] then None
    else if IsWriters(steps[|steps| - 1]) then Some(steps[|steps| - 1])
    else LastOfWriter(steps[..|steps| - 1])
  }

  /** The readers between their lock and their unlock. */
  function Holding<T>(steps: seq<Step<T>>): set<nat> {
    if steps == [] then {}
    else
      var before := Holding(steps[..|steps| - 1]);
      match steps[|steps| - 1]
      case ReaderLock(r) => before + {r}
      case ReaderUnlock(r) => before - {r}
      case _ => before
  }

  /** The order of the steps, and the mutex: the writer's own steps come in turn, its exclusive
      lock waits for the readers to go, and readers come at any other time. */
  predicate InOrder<T>(last: Option<Step<T>>, holding: set<nat>, step: Step<T>) {
    match step
    case ReaderLock(r) => r !in holding && !(last.Some? && (last.value.WriterLock? || last.value.Switch?))
    case ReaderUnlock(r) => r in holding
    case WriterLockShared => last.None? || last.value.WriterUnlock?
    case CopySome(_) => last.Some? && (last.value.WriterLockShared? || last.value.CopySome?)
    case CopyAll => last.Some? && (last.value.WriterLockShared? || last.value.CopySome?)
    case WriterUnlockShared => last.Some? && last.value.CopyAll?
    case Write(_) => last.Some? && (last.value.WriterUnlockShared? || last.value.Write?)
    case WriterLock => last.Some? && (last.value.WriterUnlockShared? || last.value.Write?) && holding == {}
    case Switch => last.Some? && last.value.WriterLock?
    case WriterUnlock => last.Some? && last.value.Switch?
  }

  function PhaseAfter<T>(last: Option<Step<T>>): Phase
    requires last.Some? ==> IsWriters(last.value)
  {
    if last.None? then Idle
    else
      match last.value
      case WriterLockShared => Copying
      case CopySome(_) => Copying
      case CopyAll => Copied
      case WriterUnlockShared => Writing
      case Write(_) => Writing
      case WriterLock => Exclusive
      case Switch => Switched
      case WriterUnlock => Idle
  }

  lemma {:induction false} PhaseOfRun<T>(init: T, steps: seq<Step<T>>)
    requires Allowed(init, steps)
    ensures var s := After(init, steps);
      s.phase == PhaseAfter(LastOfWriter(steps)) && s.readers.Keys == Holding(steps)
    decreases |steps|
  {
    if steps != [] {
      PhaseOfRun(init, steps[..|steps| - 1]);
      PhaseOfStep(init, steps);
    }
  }

  lemma {:induction false} PhaseOfStep<T>(init: T, steps: seq<Step<T>>)
    requires Allowed(init, steps) && steps != []
    requires var s := After(init, steps[..|steps| - 1]);
      s.phase == PhaseAfter(LastOfWriter(steps[..|steps| - 1])) && s.readers.Keys == Holding(steps[..|steps| - 1])
    ensures var s := After(init, steps); s.phase == PhaseAfter(LastOfWriter(steps)) && s.readers.Keys == Holding(steps)
  {
    assert After(init, steps) == Apply(After(init, steps[..|steps| - 1]), steps[|steps| - 1]);
  }

  /** A step is possible after a run exactly when it is in order. */
  lemma {:induction false} PossibleIffInOrder<T>(init: T, steps: seq<Step<T>>, step: Step<T>)
    requires Allowed(init, steps)
    ensures Allowed(init, steps + [step]) <==> InOrder(LastOfWriter(steps), Holding(steps), step)
  {
    assert (steps + [step])[..|steps|] == steps;
    PhaseOfRun(init, steps);
  }

  lemma {:induction false} OneMoreStep<T>(init: T, steps: seq<Step<T>>, step: Step<T>)
    requires Allowed(init, steps) && InOrder(LastOfWriter(steps), Holding(steps), step)
    ensures Allowed(init, steps + [step])
    ensures LastOfWriter(steps + [step]) == if IsWriters(step) then Some(step) else LastOfWriter(steps)
    ensures IsWriters(step) ==> Holding(steps + [step]) == Holding(steps)
    ensures var m := Meant(init, steps);
      Meant(init, steps + [step]) ==
        match step
        case CopyAll => m.(draft := m.committed[|m.committed| - 1])
        case Write(value) => m.(draft := value)
        case Switch => m.(committed := m.committed + [m.draft])
        case _ => m
  {
    assert (steps + [step])[..|steps|] == steps;
    PossibleIffInOrder(init, steps, step);
  }

  function CopyAndWrite<T>(steps: seq<Step<T>>, value: T): seq<Step<T>> {
    steps + [WriterLockShared] + [CopyAll] + [WriterUnlockShared] + [Write(value)]
  }

  function LockAndSwitch<T>(steps: seq<Step<T>>): seq<Step<T>> {
    steps + [WriterLock] + [Switch] + [WriterUnlock]
  }

  lemma {:induction false} CopiesAndWrites<T>(init: T, steps: seq<Step<T>>, value: T)
    requires Allowed(init, steps) && Holding(steps) == {}
    requires LastOfWriter(steps).None? || LastOfWriter(steps).value.WriterUnlock?
    ensures var done := CopyAndWrite(steps, value);
      && Allowed(init, done) && Holding(done) == {} && LastOfWriter(done) == Some(Write(value))
      && Meant(init, done).draft == value
  {
    OneMoreStep(init, steps, WriterLockShared);
    OneMoreStep(init, steps + [WriterLockShared], CopyAll);
    OneMoreStep(init, steps + [WriterLockShared] + [CopyAll], WriterUnlockShared);
    OneMoreStep(init, steps + [WriterLockShared] + [CopyAll] + [WriterUnlockShared], Write(value));
  }

  lemma {:induction false} LocksAndSwitches<T>(init: T, steps: seq<Step<T>>, value: T)
    requires Allowed(init, steps) && Holding(steps) == {} && LastOfWriter(steps) == Some(Write(value))
    requires Meant(init, steps).draft == value
    ensures var done := LockAndSwitch(steps);
      && Allowed(init, done) && Holding(done) == {} && LastOfWriter(done) == Some(WriterUnlock)
      && Meant(init, done).committed == Meant(init, steps).committed + [value]
  {
    OneMoreStep(init, steps, WriterLock);
    OneMoreStep(init, steps + [WriterLock], Switch);
    OneMoreStep(init, steps + [WriterLock] + [Switch], WriterUnlock);
  }

  /** The ordinary writer's run, whenever no other writer and no reader is there, commits what it
      writes: the next reader sees it. */
  lemma {:induction false} OrdinaryWriteIsSeen<T>(init: T, steps: seq<Step<T>>, value: T, reader: nat)
    requires Allowed(init, steps) && Holding(steps) == {}
    requires LastOfWriter(steps).None? || LastOfWriter(steps).value.WriterUnlock?
    ensures var done := LockAndSwitch(CopyAndWrite(steps, value)) + [ReaderLock(reader)];
      && Allowed(init, done) && reader in After(init, done).readers && After(init, done).readers[reader] == value
  {
    CopiesAndWrites(init, steps, value);
    var copied := CopyAndWrite(steps, value);
    LocksAndSwitches(init, copied, value);
    var done := LockAndSwitch(copied);
    OneMoreStep(init, done, ReaderLock(reader));
    WritesAreCommitted(init, done + [ReaderLock(reader)]);
    ReaderHolds(init, done, reader);
  }

  lemma {:induction false} ReaderHolds<T>(init: T, steps: seq<Step<T>>, reader: nat)
    requires Allowed(init, steps + [ReaderLock(reader)])
    ensures reader in After(init, steps + [ReaderLock(reader)]).readers
  {
    assert (steps + [ReaderLock(reader)])[..|steps|] == steps;
  }
}
