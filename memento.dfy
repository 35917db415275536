/** The player with undo and redo of Behavioral/memento.cpp.

    The player's counters and its two snapshot stacks are updated in place, so
    the player is a class; each method is proved against a transition function
    on a History value (the current counters and both stacks, top of a stack
    last), and the properties the undo/redo engine promises are proved about
    those functions. */
module MementoPlayer {
  import opened Common

  const HEALTH_MAX: u8 := 100
  const POWER_MAX: u8 := 100
  const POWER_START: u8 := 10
  const LEVEL_START: u8 := 1
  const LEVEL_MAX: u8 := 15
  const PENALTY: u8 := 5

  /** The `Memento`: the three counters at one moment. */
  datatype Snapshot = Snapshot(health: u8, attackPower: u8, level: u8)

  /** The player's counters with its `changes` and `undoneChanges` stacks. */
  datatype History = History(current: Snapshot, changes: seq<Snapshot>, undone: seq<Snapshot>)

  /** A fresh player: full health, starting power and level, nothing to undo or redo. */
  function Start(): History
  {
    History(Snapshot(HEALTH_MAX, POWER_START, LEVEL_START), [], [])
  }

  // ---------------------------------------------------------------- the counters

  /** `workout`: one more attack power, up to the maximum. */
  function WorkoutEffect(s: Snapshot): (r: Snapshot)
    ensures r.health == s.health && r.level == s.level
    ensures s.attackPower < POWER_MAX ==> r.attackPower == s.attackPower + 1
    ensures s.attackPower >= POWER_MAX ==> r == s
  {
    if s.attackPower < POWER_MAX then s.(attackPower := s.attackPower + 1) else s
  }

  /** `takeMedicine`: one more health, up to the maximum. */
  function TakeMedicineEffect(s: Snapshot): (r: Snapshot)
    ensures r.attackPower == s.attackPower && r.level == s.level
    ensures s.health < HEALTH_MAX ==> r.health == s.health + 1
    ensures s.health >= HEALTH_MAX ==> r == s
  {
    if s.health < HEALTH_MAX then s.(health := s.health + 1) else s
  }

  /** `fight`: a win raises the level up to its maximum; a loss lowers it down to
      the start level and costs the penalty in health, floored at 0. */
  function FightEffect(s: Snapshot, enemyPower: u8): (r: Snapshot)
    ensures r.attackPower == s.attackPower
    ensures s.attackPower > enemyPower ==>
      r.health == s.health && r.level == (if s.level < LEVEL_MAX then s.level + 1 else s.level)
    ensures s.attackPower <= enemyPower ==>
      && r.level == (if s.level > LEVEL_START then s.level - 1 else s.level)
      && r.health == (if s.health > PENALTY then s.health - PENALTY else 0)
  {
    if s.attackPower > enemyPower then
      if s.level < LEVEL_MAX then s.(level := s.level + 1) else s
    else
      var level := if s.level > LEVEL_START then s.level - 1 else s.level;
      var health := if s.health > PENALTY then s.health - PENALTY else 0;
      Snapshot(health, s.attackPower, level)
  }

  // ---------------------------------------------------------------- the stacks

  /** `saveMemento`: push the current counters and empty the redo stack. */
  function Save(h: History): (r: History)
    ensures r.current == h.current && r.changes == h.changes + [h.current] && r.undone == []
  {
    History(h.current, h.changes + [h.current], [])
  }

  /** An action: save, then change the counters. */
  function Act(h: History, next: Snapshot -> Snapshot): (r: History)
    ensures r.changes == h.changes + [h.current] && r.undone == []
    ensures r.current == next(h.current)
  {
    Save(h).(current := next(h.current))
  }

  /** `undo`: nothing with an empty history; otherwise the current counters go on
      the redo stack and the top snapshot is restored and popped. */
  function UndoEffect(h: History): (r: History)
    ensures h.changes == [] ==> r == h
    ensures h.changes != [] ==>
      && r.current == h.changes[|h.changes| - 1]
      && r.changes == h.changes[..|h.changes| - 1]
      && r.undone == h.undone + [h.current]
  {
    if h.changes == [] then h
    else History(h.changes[|h.changes| - 1], h.changes[..|h.changes| - 1], h.undone + [h.current])
  }

  /** `redo`: the mirror image of `undo`, between the same two stacks. */
  function RedoEffect(h: History): (r: History)
    ensures h.undone == [] ==> r == h
    ensures h.undone != [] ==>
      && r.current == h.undone[|h.undone| - 1]
      && r.undone == h.undone[..|h.undone| - 1]
      && r.changes == h.changes + [h.current]
  {
    if h.undone == [] then h
    else History(h.undone[|h.undone| - 1], h.changes + [h.current], h.undone[..|h.undone| - 1])
  }

  // ---------------------------------------------------------------- properties

  /** The bounds every counter keeps. */
  predicate Bounded(s: Snapshot)
  {
    s.health <= HEALTH_MAX && s.attackPower <= POWER_MAX && LEVEL_START <= s.level <= LEVEL_MAX
  }

  /** The current counters and every stored snapshot are within bounds. */
  predicate Valid(h: History)
  {
    && Bounded(h.current)
    && (forall i :: 0 <= i < |h.changes| ==> Bounded(h.changes[i]))
    && (forall i :: 0 <= i < |h.undone| ==> Bounded(h.undone[i]))
  }

  /** The operations a player can be asked to do. */
  datatype Op = WorkoutOp | TakeMedicineOp | FightOp(enemyPower: u8) | UndoOp | RedoOp

  function Step(h: History, op: Op): History
  {
    match op
    case WorkoutOp => Act(h, WorkoutEffect)
    case TakeMedicineOp => Act(h, TakeMedicineEffect)
    case FightOp(e) => Act(h, s => FightEffect(s, e))
    case UndoOp => UndoEffect(h)
    case RedoOp => RedoEffect(h)
  }

  /** The operations applied in order. */
  function Run(h: History, ops: seq<Op>): History
    decreases |ops|
  {
    if ops == [] then h else Run(Step(h, ops[0]), ops[1..])
  }

  /** Each operation keeps every counter, stored or current, within bounds. */
  lemma StepValid(h: History, op: Op)
    requires Valid(h)
    ensures Valid(Step(h, op))
  {
    match op
    case WorkoutOp =>
    case TakeMedicineOp =>
    case FightOp(e) =>
    case UndoOp =>
    case RedoOp =>
  }

  /** Any run of operations from bounded counters keeps health at most 100, power
      at most 100 and the level between 1 and 15. */
  lemma {:induction false} RunValid(h: History, ops: seq<Op>)
    requires Valid(h)
    ensures Valid(Run(h, ops))
    decreases |ops|
  {
    if ops != [] {
      StepValid(h, ops[0]);
      RunValid(Step(h, ops[0]), ops[1..]);
    }
  }

  /** From a fresh player, any run of operations keeps every counter in bounds. */
  lemma ReachableValid(ops: seq<Op>)
    ensures Valid(Run(Start(), ops))
  {
    RunValid(Start(), ops);
  }

  /** `redo` right after an effective `undo` gives back the state before it. */
  lemma RedoUndo(h: History)
    requires h.changes != []
    ensures RedoEffect(UndoEffect(h)) == h
  {
    assert h.changes[..|h.changes| - 1] + [h.changes[|h.changes| - 1]] == h.changes;
    assert (h.undone + [h.current])[..|h.undone|] == h.undone;
  }

  /** `undo` right after an effective `redo` gives back the state before it. */
  lemma UndoRedo(h: History)
    requires h.undone != []
    ensures UndoEffect(RedoEffect(h)) == h
  {
    assert h.undone[..|h.undone| - 1] + [h.undone[|h.undone| - 1]] == h.undone;
    assert (h.changes + [h.current])[..|h.changes|] == h.changes;
  }

  /** `undo` and `redo` move one snapshot between the stacks and keep their total. */
  lemma SnapshotsKept(h: History)
    ensures |UndoEffect(h).changes| + |UndoEffect(h).undone| == |h.changes| + |h.undone|
    ensures |RedoEffect(h).changes| + |RedoEffect(h).undone| == |h.changes| + |h.undone|
  {
  }

  /** After any action, `redo` has nothing to do. */
  lemma NoRedoAfterAction(h: History, next: Snapshot -> Snapshot)
    ensures RedoEffect(Act(h, next)) == Act(h, next)
  {
  }

  /** Undoing an action restores the counters from before it and forgets the
      redo stack that the action dropped. */
  lemma UndoAction(h: History, next: Snapshot -> Snapshot)
    ensures UndoEffect(Act(h, next)) == History(h.current, h.changes, [next(h.current)])
  {
    assert (h.changes + [h.current])[..|h.changes|] == h.changes;
  }

  // ---------------------------------------------------------------- the player object

  class Player {
    const name: string
    var health: u8
    var attackPower: u8
    var level: u8
    /** The `changes` stack, top last. */
    var changes: seq<Snapshot>
    /** The `undoneChanges` stack, top last. */
    var undoneChanges: seq<Snapshot>

    function State(): History
      reads this
    {
      History(Snapshot(health, attackPower, level), changes, undoneChanges)
    }

    constructor (name: string)
      ensures this.name == name && State() == Start()
    {
      this.name := name;
      health := HEALTH_MAX;
      attackPower := POWER_START;
      level := LEVEL_START;
      changes := [];
      undoneChanges := [];
    }

    method Undo()
      modifies this
      ensures State() == UndoEffect(old(State()))
    {
      if changes == [] {
        return;
      }
      undoneChanges := undoneChanges + [Snapshot(health, attackPower, level)];
      var m := changes[|changes| - 1];
      RestoreFromMemento(m);
      changes := changes[..|changes| - 1];
    }

    method Redo()
      modifies this
      ensures State() == RedoEffect(old(State()))
    {
      if undoneChanges == [] {
        return;
      }
      changes := changes + [Snapshot(health, attackPower, level)];
      var m := undoneChanges[|undoneChanges| - 1];
      RestoreFromMemento(m);
      undoneChanges := undoneChanges[..|undoneChanges| - 1];
    }

    method Workout()
      modifies this
      ensures State() == Act(old(State()), WorkoutEffect)
    {
      SaveMemento();
      if attackPower < POWER_MAX {
        attackPower := attackPower + 1;
      }
    }

    method TakeMedicine()
      modifies this
      ensures State() == Act(old(State()), TakeMedicineEffect)
    {
      SaveMemento();
      if health < HEALTH_MAX {
        health := health + 1;
      }
    }

    method Fight(enemyPower: u8)
      modifies this
      ensures State() == Act(old(State()), s => FightEffect(s, enemyPower))
    {
      SaveMemento();
      if attackPower > enemyPower {
        if level < LEVEL_MAX {
          level := level + 1;
        }
      } else {
        if level > LEVEL_START {
          level := level - 1;
        }
        if health > PENALTY {
          health := health - PENALTY;
        } else {
          health := 0;
        }
      }
    }

    /** Push the counters, then pop the redo stack until it is empty. */
    method SaveMemento()
      modifies this
      ensures State() == Save(old(State()))
    {
      changes := changes + [Snapshot(health, attackPower, level)];
      while undoneChanges != []
        invariant State() == old(State()).(changes := old(changes) + [old(State()).current],
                                           undone := undoneChanges)
        decreases |undoneChanges|
      {
        undoneChanges := undoneChanges[..|undoneChanges| - 1];
      }
    }

    method RestoreFromMemento(m: Snapshot)
      modifies this
      ensures State() == old(State()).(current := m)
    {
      health := m.health;
      attackPower := m.attackPower;
      level := m.level;
    }
  }
}
