/**
 When a transaction commits: exactly when it is signed and in turn, every instruction is well formed, what is added to is
 a number or nothing by then, and the gas of all instructions is within the limit.
 */
module Committing {
  import opened Results
  import opened Model
  import opened Certificates
  import opened Protocol
  import opened Execution
  import opened Replay
  import opened Journal

  // ----- Instructions

  predicate IsNumber(v: Value) { v.Int? || v.Bool? }

  /** One of the three operations on a key of 1 to 256 bytes, with a value of at most 16 KiB that suits it. */
  predicate WellFormed(i: Instruction) {
    && i.operation in {"SET", "DELETE", "ADD_INT"}
    && 0 < |i.key| && Utf8Length(i.key) <= 256 && CanonicalLength(i.value) <= 16_384
    && (i.operation == "ADD_INT" ==> IsNumber(i.value)) && (i.operation == "DELETE" ==> i.value == Null)
  }

  lemma ValidatesWellFormed(i: Instruction)
    ensures Validate(i).None? <==> WellFormed(i)
  {}

  /** After these instructions the key holds a number, or nothing. */
  predicate Countable(state: Table, before: seq<Instruction>, key: string) {
    if before == [] then key in state ==> IsNumber(state[key])
    else if before[|before| - 1].key != key then Countable(state, before[..|before| - 1], key)
    else before[|before| - 1].operation == "SET" ==> IsNumber(before[|before| - 1].value)
  }

  lemma {:induction false} CountableAfter(state: Table, i: Instruction, rest: seq<Instruction>, key: string)
    requires WellFormed(i) && Effect(state, i).Ok?
    ensures Countable(Effect(state, i).value, rest, key) == Countable(state, [i] + rest, key)
    decreases |rest|
  {
    var all := [i] + rest;
    if rest == [] {
      assert all == [i] && all[..0] == [];
    } else {
      assert all[|all| - 1] == rest[|rest| - 1] && all[..|all| - 1] == [i] + rest[..|rest| - 1];
      CountableAfter(state, i, rest[..|rest| - 1], key);
      hide Effect, WellFormed;
    }
  }

  lemma EffectWorks(state: Table, i: Instruction)
    requires WellFormed(i)
    ensures Effect(state, i).Ok? <==> (i.operation == "ADD_INT" ==> i.key in state ==> IsNumber(state[i.key]))
  {}

  // ----- Gas

  function Uses(instructions: seq<Instruction>, operation: string): nat {
    if instructions == [] then 0
    else (if instructions[0].operation == operation then 1 else 0) + Uses(instructions[1..], operation)
  }

  lemma {:induction false} GasOfUses(instructions: seq<Instruction>)
    requires forall i :: 0 <= i < |instructions| ==> WellFormed(instructions[i])
    ensures TotalGas(instructions)
         == 10 * Uses(instructions, "SET") + 8 * Uses(instructions, "DELETE") + 12 * Uses(instructions, "ADD_INT")
  {
    if instructions != [] {
      assert forall i :: 0 <= i < |instructions| - 1 ==> instructions[1..][i] == instructions[i + 1];
      GasOfUses(instructions[1..]);
      assert WellFormed(instructions[0]);
    }
  }

  lemma {:induction false} GasNonNegative(instructions: seq<Instruction>)
    ensures TotalGas(instructions) >= 0
  {
    if instructions != [] { GasNonNegative(instructions[1..]); }
  }

  // ----- Staging

  ghost predicate AllWellFormed(instructions: seq<Instruction>) {
    forall i :: 0 <= i < |instructions| ==> WellFormed(instructions[i])
  }

  ghost predicate AddsToNumbers(state: Table, instructions: seq<Instruction>) {
    forall i :: 0 <= i < |instructions| && instructions[i].operation == "ADD_INT" ==>
      Countable(state, instructions[..i], instructions[i].key)
  }

  lemma AddsLater(state: Table, instructions: seq<Instruction>)
    requires instructions != [] && WellFormed(instructions[0]) && Effect(state, instructions[0]).Ok?
    ensures AddsToNumbers(state, instructions) <==> AddsToNumbers(Effect(state, instructions[0]).value, instructions[1..])
  {
    var head, rest := instructions[0], instructions[1..];
    var next := Effect(state, head).value;
    EffectWorks(state, head);
    assert instructions[..0] == [];
    forall i | 0 <= i < |rest|
      ensures Countable(next, rest[..i], rest[i].key) == Countable(state, instructions[..i + 1], instructions[i + 1].key)
    {
      CountableAfter(state, head, rest[..i], rest[i].key);
      assert instructions[..i + 1] == [head] + rest[..i];
    }
    hide Effect, WellFormed;
    if AddsToNumbers(state, instructions) {
      forall i | 0 <= i < |rest| && rest[i].operation == "ADD_INT" ensures Countable(next, rest[..i], rest[i].key) {
        assert instructions[i + 1] == rest[i];
      }
    } else {
      var i :| && 0 <= i < |instructions| && instructions[i].operation == "ADD_INT"
               && !Countable(state, instructions[..i], instructions[i].key);
      assert i > 0;
      assert rest[i - 1] == instructions[i];
    }
  }

  lemma {:induction false} StageExactly(s: Staged, instructions: seq<Instruction>, gasLimit: int)
    requires s.gasUsed <= gasLimit
    ensures Stage(s, instructions, gasLimit).Ok? <==>
            && AllWellFormed(instructions) && AddsToNumbers(s.state, instructions)
            && s.gasUsed + TotalGas(instructions) <= gasLimit
    decreases |instructions|
  {
    if instructions != [] {
      var head, rest := instructions[0], instructions[1..];
      ValidatesWellFormed(head);
      assert instructions == [head] + rest;
      AllSplit(instructions);
      GasNonNegative(rest);
      FirstAdd(s.state, instructions);
      if WellFormed(head) {
        EffectWorks(s.state, head);
        if Effect(s.state, head).Ok? {
          AddsLater(s.state, instructions);
          if StageOne(s, head, gasLimit).Ok? { StageExactly(StageOne(s, head, gasLimit).value, rest, gasLimit); }
        }
      }
      hide WellFormed, Effect, Validate, AllWellFormed, AddsToNumbers;
    }
  }

  lemma AllSplit(instructions: seq<Instruction>)
    requires instructions != []
    ensures AllWellFormed(instructions) <==> WellFormed(instructions[0]) && AllWellFormed(instructions[1..])
  {
    hide WellFormed;
    assert forall i :: 0 <= i < |instructions| - 1 ==> instructions[1..][i] == instructions[i + 1];
    if WellFormed(instructions[0]) && AllWellFormed(instructions[1..]) {
      forall i | 0 <= i < |instructions| ensures WellFormed(instructions[i]) {
        if i > 0 { assert instructions[i] == instructions[1..][i - 1]; }
      }
    }
  }

  lemma FirstAdd(state: Table, instructions: seq<Instruction>)
    requires instructions != []
    ensures AddsToNumbers(state, instructions) && instructions[0].operation == "ADD_INT" ==>
              (instructions[0].key in state ==> IsNumber(state[instructions[0].key]))
  {
    assert instructions[..0] == [];
  }

  // ----- Transactions

  /**
   A transaction that is not cached commits exactly when it carries its own identifier and its caller's signature over
   some instructions, not too many, with the caller's next nonce; every one of them is well formed and adds only to
   numbers; and 10 for each SET, 8 for each DELETE and 12 for each ADD_INT come to no more than its gas limit.
   */
  lemma CommitsExactly(e: Executor, t: Transaction)
    requires t.txId !in e.receipts
    ensures var s, list := t.statement, t.statement.instructions;
            e.Execute(t).1.success <==>
            && t.txId == TransactionDigest(s) && t.signature == ByCaller(s.callerPublicKey, s)
            && 0 < |list| <= e.maxInstructions && s.nonce >= 0 && s.nonce == e.NonceOf(s.caller)
            && AllWellFormed(list) && AddsToNumbers(e.state, list)
            && s.gasLimit > 0
            && 10 * Uses(list, "SET") + 8 * Uses(list, "DELETE") + 12 * Uses(list, "ADD_INT") <= s.gasLimit
    ensures e.Execute(t).1.success ==> e.Execute(t).0.NonceOf(t.statement.caller) == e.NonceOf(t.statement.caller) + 1
    ensures !e.Execute(t).1.success ==> e.Execute(t).0.state == e.state && e.Execute(t).0.nonces == e.nonces
  {
    var s := t.statement;
    hide AllWellFormed, AddsToNumbers, TotalGas, Uses, Stage;
    if s.gasLimit > 0 { StageExactly(Staged(e.state, [], 0), s.instructions, s.gasLimit); }
    if AllWellFormed(s.instructions) { GasOfAll(s.instructions); }
  }

  lemma GasOfAll(instructions: seq<Instruction>)
    requires AllWellFormed(instructions)
    ensures TotalGas(instructions)
         == 10 * Uses(instructions, "SET") + 8 * Uses(instructions, "DELETE") + 12 * Uses(instructions, "ADD_INT")
  {
    GasOfUses(instructions);
    hide WellFormed, TotalGas, Uses;
  }

  // ----- For a capsule

  /**
   A transaction is run for a capsule exactly when the capsule's own closure verifies, the capsule is on a known seal with
   the executor's root, names this transaction as its witness, changes the root, and the receipt leads there; whatever
   does not fit leaves the executor as it was.
   */
  lemma RunsForCapsuleExactly(e: Executor, t: Transaction, c: Capsule, proof: Proof, p: ProtocolState)
    ensures var o, r := e.ExecuteForCapsule(t, c, proof, p), e.Execute(t).1;
            && (o.1.Ok? <==>
                && proof.capsuleId == c.Id() && p.VerifyClosure(c, proof) && c.body.predecessorId in p.knownSeals
                && p.knownSeals[c.body.predecessorId].stateRoot == StateRoot(e.state) != c.body.successorRoot
                && c.body.ruleWitness == t.txId
                && r.success && r.preRoot == StateRoot(e.state) && r.postRoot == c.body.successorRoot)
            && o == if o.1.Ok? then (e.Execute(t).0, Ok(r)) else (e, Err(NotForCapsule))
  {
    hide Executor.Execute, ProtocolState.VerifyClosure;
  }

  // ----- Lengths

  /** UTF-8 takes one to four bytes for a character, by its code point, and adds up. */
  lemma {:induction false} Utf8Spec(a: string, b: string)
    ensures Utf8Length(a + b) == Utf8Length(a) + Utf8Length(b)
    ensures forall ch: char :: Utf8Length([ch]) == 1 <==> ch as int < 0x80
    ensures forall ch: char :: Utf8Length([ch]) == 2 <==> 0x80 <= ch as int < 0x800
    ensures forall ch: char :: Utf8Length([ch]) == 3 <==> 0x800 <= ch as int < 0x1_0000
    ensures forall ch: char :: 1 <= Utf8Length([ch]) <= 4
  {
    if a == [] {
      assert a + b == b;
    } else {
      assert (a + b)[1..] == a[1..] + b;
      Utf8Spec(a[1..], b);
    }
    forall ch: char ensures [ch][1..] == [] {}
  }

  function Power10(n: nat): nat { if n == 0 then 1 else 10 * Power10(n - 1) }

  lemma {:induction false} DigitsSpec(n: nat)
    ensures var d := DecimalDigits(n); d >= 1 && n < Power10(d) && (n > 0 ==> Power10(d - 1) <= n)
  {
    if n >= 10 { DigitsSpec(n / 10); }
  }
}
