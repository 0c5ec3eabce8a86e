/**
 What committed instructions mean key by key: only the instructions on a key decide it, and the events of an execution
 are a journal of it that reads forwards and backwards.
 */
module Journal {
  import opened Results
  import opened Model
  import opened Execution

  function Entry(state: Table, key: string): Option<Value> { if key in state then Some(state[key]) else None }

  /** The instructions on one key. */
  function Only(instructions: seq<Instruction>, key: string): seq<Instruction> {
    if instructions == [] then []
    else (if instructions[0].key == key then [instructions[0]] else []) + Only(instructions[1..], key)
  }

  lemma EffectIsLocal(state: Table, other: Table, i: Instruction, key: string)
    requires Entry(state, key) == Entry(other, key) && Effect(state, i).Ok?
    ensures i.key != key ==> Entry(Effect(state, i).value, key) == Entry(other, key)
    ensures i.key == key ==> Effect(other, i).Ok? && Entry(Effect(state, i).value, key) == Entry(Effect(other, i).value, key)
  {}

  lemma StagesAlone(s: Staged, other: Staged, i: Instruction, gasLimit: int)
    requires StageOne(s, i, gasLimit).Ok? && Entry(s.state, i.key) == Entry(other.state, i.key) && other.gasUsed <= s.gasUsed
    ensures StageOne(other, i, gasLimit).Ok?
    ensures var next, alone := StageOne(s, i, gasLimit).value, StageOne(other, i, gasLimit).value;
            Entry(next.state, i.key) == Entry(alone.state, i.key) && alone.gasUsed <= next.gasUsed
  {
    EffectIsLocal(s.state, other.state, i, i.key);
    hide Effect, Validate, Lookup;
  }

  lemma StagesElsewhere(s: Staged, i: Instruction, gasLimit: int, key: string)
    requires StageOne(s, i, gasLimit).Ok? && i.key != key
    ensures var next := StageOne(s, i, gasLimit).value; Entry(next.state, key) == Entry(s.state, key) && next.gasUsed >= s.gasUsed
  {
    EffectIsLocal(s.state, s.state, i, key);
    hide Effect, Validate, Lookup;
  }

  /** Dropping every instruction on other keys changes nothing about this key, and cannot make the staging fail. */
  lemma {:induction false} OtherKeysDoNotMatter(s: Staged, other: Staged, instructions: seq<Instruction>, gasLimit: int, key: string)
    requires Stage(s, instructions, gasLimit).Ok?
    requires Entry(s.state, key) == Entry(other.state, key) && other.gasUsed <= s.gasUsed
    ensures var alone := Stage(other, Only(instructions, key), gasLimit);
            && alone.Ok?
            && Entry(alone.value.state, key) == Entry(Stage(s, instructions, gasLimit).value.state, key)
    decreases |instructions|
  {
    if instructions != [] {
      var i := instructions[0];
      var next := StageOne(s, i, gasLimit).value;
      if i.key == key {
        StagesAlone(s, other, i, gasLimit);
        hide StageOne;
        assert Only(instructions, key) == [i] + Only(instructions[1..], key);
        assert Only(instructions, key)[1..] == Only(instructions[1..], key);
        OtherKeysDoNotMatter(next, StageOne(other, i, gasLimit).value, instructions[1..], gasLimit, key);
      } else {
        StagesElsewhere(s, i, gasLimit, key);
        hide StageOne;
        assert Only(instructions, key) == Only(instructions[1..], key);
        OtherKeysDoNotMatter(next, other, instructions[1..], gasLimit, key);
      }
    }
  }

  lemma {:induction false} Untouched(s: Staged, instructions: seq<Instruction>, gasLimit: int, key: string)
    requires Stage(s, instructions, gasLimit).Ok? && forall i :: 0 <= i < |instructions| ==> instructions[i].key != key
    ensures Entry(Stage(s, instructions, gasLimit).value.state, key) == Entry(s.state, key)
    decreases |instructions|
  {
    if instructions != [] {
      EffectIsLocal(s.state, s.state, instructions[0], key);
      hide Effect, Validate;
      Untouched(StageOne(s, instructions[0], gasLimit).value, instructions[1..], gasLimit, key);
    }
  }

  /** The last instruction on a key decides it when it sets or deletes. */
  lemma {:induction false} LastWriteWins(s: Staged, instructions: seq<Instruction>, gasLimit: int, n: nat)
    requires Stage(s, instructions, gasLimit).Ok? && n < |instructions|
    requires forall i :: n < i < |instructions| ==> instructions[i].key != instructions[n].key
    ensures var now := Entry(Stage(s, instructions, gasLimit).value.state, instructions[n].key);
            && (instructions[n].operation == "SET" ==> now == Some(instructions[n].value))
            && (instructions[n].operation == "DELETE" ==> now == None)
    decreases n
  {
    var next := StageOne(s, instructions[0], gasLimit).value;
    if n == 0 {
      Untouched(next, instructions[1..], gasLimit, instructions[0].key);
    } else {
      LastWriteWins(next, instructions[1..], gasLimit, n - 1);
    }
  }

  function Sum(instructions: seq<Instruction>): int {
    if instructions == [] then 0
    else
      var n := AsInteger(instructions[0].value);
      (if n.Some? then n.value else 0) + Sum(instructions[1..])
  }

  /** Instructions that only add to a key leave it at what it was, or zero, plus everything added. */
  lemma {:induction false} AddsUp(s: Staged, instructions: seq<Instruction>, gasLimit: int, key: string)
    requires Stage(s, instructions, gasLimit).Ok? && instructions != []
    requires forall i :: 0 <= i < |instructions| ==> instructions[i].operation == "ADD_INT" && instructions[i].key == key
    ensures var was := if key in s.state then AsInteger(s.state[key]) else Some(0);
            && was.Some?
            && Entry(Stage(s, instructions, gasLimit).value.state, key) == Some(Int(was.value + Sum(instructions)))
    decreases |instructions|
  {
    var next := StageOne(s, instructions[0], gasLimit).value;
    if |instructions| > 1 {
      AddsUp(next, instructions[1..], gasLimit, key);
    } else {
      assert instructions[1..] == [];
    }
  }

  // ----- Events

  /** The value of a key after the events, from its value before them. */
  function Replayed(events: seq<ExecutionEvent>, key: string, before: Value): Value {
    if events == [] then before
    else Replayed(events[1..], key, if events[0].key == key then events[0].after else before)
  }

  /** The value of a key before the events, from its value after them. */
  function Rewound(events: seq<ExecutionEvent>, key: string, after: Value): Value {
    if events == [] then after
    else
      var later := Rewound(events[1..], key, after);
      if events[0].key == key then events[0].before else later
  }

  /** Each event on the key starts from what the one before it left. */
  predicate Chained(events: seq<ExecutionEvent>, key: string, before: Value) {
    events == [] ||
    (if events[0].key == key then events[0].before == before && Chained(events[1..], key, events[0].after)
     else Chained(events[1..], key, before))
  }

  predicate Describes(events: seq<ExecutionEvent>, instructions: seq<Instruction>) {
    && |events| == |instructions|
    && forall i :: 0 <= i < |events| ==> events[i].operation == instructions[i].operation && events[i].key == instructions[i].key
  }

  lemma {:induction false} EventsAreJournal(s: Staged, instructions: seq<Instruction>, gasLimit: int, key: string)
    returns (more: seq<ExecutionEvent>)
    requires Stage(s, instructions, gasLimit).Ok?
    ensures var r := Stage(s, instructions, gasLimit).value;
            && r.events == s.events + more && Describes(more, instructions)
            && Chained(more, key, Lookup(s.state, key))
            && Replayed(more, key, Lookup(s.state, key)) == Lookup(r.state, key)
            && Rewound(more, key, Lookup(r.state, key)) == Lookup(s.state, key)
    decreases |instructions|
  {
    more := [];
    if instructions != [] {
      var next := StageOne(s, instructions[0], gasLimit).value;
      EffectIsLocal(s.state, s.state, instructions[0], key);
      hide Effect, Validate;
      var rest := EventsAreJournal(next, instructions[1..], gasLimit, key);
      more := [next.events[|s.events|]] + rest;
      assert more[1..] == rest;
      assert next.events + rest == s.events + more;
    }
  }

  /** What the receipt of a committed transaction digests is such a journal, for every key. */
  lemma CommittedJournal(e: Executor, t: Transaction) returns (events: seq<ExecutionEvent>)
    requires t.txId !in e.receipts && e.Attempt(t).Ok?
    ensures var (after, receipt) := e.Execute(t);
            && receipt.success && receipt.eventRoot == EventsDigest(events) && Describes(events, t.statement.instructions)
            && forall key ::
                 && Chained(events, key, Lookup(e.state, key))
                 && Replayed(events, key, Lookup(e.state, key)) == Lookup(after.state, key)
                 && Rewound(events, key, Lookup(after.state, key)) == Lookup(e.state, key)
  {
    var s := Staged(e.state, [], 0);
    var r := StageAll(e.state, t.statement).value;
    hide Stage, Chained, Replayed, Rewound, Lookup;
    events := r.events;
    var same := EventsAreJournal(s, t.statement.instructions, t.statement.gasLimit, "");
    assert r.events == same;
    forall key
      ensures Chained(events, key, Lookup(e.state, key))
      ensures Replayed(events, key, Lookup(e.state, key)) == Lookup(r.state, key)
      ensures Rewound(events, key, Lookup(r.state, key)) == Lookup(e.state, key)
    {
      var more := EventsAreJournal(s, t.statement.instructions, t.statement.gasLimit, key);
      assert r.events == more;
    }
  }
}
