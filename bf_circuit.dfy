/**
 * The Boolean circuit of the BF-synthesis example: gates are numbered from
 * 0 and pins from 1; every input, output and gate pin is allocated by
 * bumping `numPins`, and `connections` records the parent of a pin.
 */
module BfCircuit {

  datatype LogicGate = LogicGate(kind: string, numInputs: nat, numOutputs: nat)

  /** `count` pins allocated one after the other once `start` pins exist: `start+1..=start+count`. */
  function Consecutive(start: nat, count: nat): (r: seq<nat>)
    ensures |r| == count
  {
    if count == 0 then [] else Consecutive(start, count - 1) + [start + count]
  }

  /** How often `v` occurs among the pins `ps`. */
  function Occurrences(ps: seq<nat>, v: nat): nat
  {
    if |ps| == 0 then 0 else Occurrences(ps[..|ps| - 1], v) + (if ps[|ps| - 1] == v then 1 else 0)
  }

  lemma {:induction false} OccurrencesAppend(a: seq<nat>, b: seq<nat>, v: nat)
    ensures Occurrences(a + b, v) == Occurrences(a, v) + Occurrences(b, v)
  {
    if |b| > 0 {
      var b' := b[..|b| - 1];
      assert (a + b)[..|a + b| - 1] == a + b';
      OccurrencesAppend(a, b', v);
    } else {
      assert a + b == a;
    }
  }

  /** Consecutive pins hold each pin of `start+1..=start+count` once and no other. */
  lemma {:induction false} OccurrencesConsecutive(start: nat, count: nat, v: nat)
    ensures Occurrences(Consecutive(start, count), v) == if start < v <= start + count then 1 else 0
  {
    if count > 0 {
      var c := Consecutive(start, count);
      assert c[..count - 1] == Consecutive(start, count - 1);
      OccurrencesConsecutive(start, count - 1, v);
    }
  }

  lemma {:induction false} OccurrencesAt(ps: seq<nat>, i: nat)
    requires i < |ps|
    ensures Occurrences(ps, ps[i]) >= 1
  {
    if i < |ps| - 1 {
      assert ps[..|ps| - 1][i] == ps[i];
      OccurrencesAt(ps[..|ps| - 1], i);
    }
  }

  /** The pins of gates `0..k`, each gate's inputs followed by its outputs. */
  function GatePins(ins: seq<seq<nat>>, outs: seq<seq<nat>>, k: nat): seq<nat>
    requires k <= |ins| && k <= |outs|
  {
    if k == 0 then [] else GatePins(ins, outs, k - 1) + ins[k - 1] + outs[k - 1]
  }

  lemma {:induction false} GatePinsFrame(ins: seq<seq<nat>>, outs: seq<seq<nat>>, a: seq<nat>, b: seq<nat>, j: nat)
    requires j <= |ins| && j <= |outs|
    ensures GatePins(ins + [a], outs + [b], j) == GatePins(ins, outs, j)
  {
    if j > 0 {
      GatePinsFrame(ins, outs, a, b, j - 1);
      assert (ins + [a])[j - 1] == ins[j - 1] && (outs + [b])[j - 1] == outs[j - 1];
    }
  }

  /** The pins of a new last gate come after the pins of the gates before it. */
  lemma GatePinsAppend(ins: seq<seq<nat>>, outs: seq<seq<nat>>, a: seq<nat>, b: seq<nat>)
    requires |ins| == |outs|
    ensures GatePins(ins + [a], outs + [b], |ins| + 1) == GatePins(ins, outs, |ins|) + a + b
  {
    GatePinsFrame(ins, outs, a, b, |ins|);
  }

  /** Pins that hold each of `1..=n` once are all between 1 and `n` and pairwise distinct. */
  lemma PinsDistinct(ps: seq<nat>, n: nat)
    requires PinsOk(n, ps)
    ensures forall i :: 0 <= i < |ps| ==> 1 <= ps[i] <= n
    ensures forall i, j :: 0 <= i < j < |ps| ==> ps[i] != ps[j]
  {
    forall i | 0 <= i < |ps|
      ensures 1 <= ps[i] <= n
    {
      OccurrencesAt(ps, i);
    }
    forall i, j | 0 <= i < j < |ps|
      ensures ps[i] != ps[j]
    {
      if ps[i] == ps[j] {
        var v := ps[i];
        assert ps == ps[..j] + ps[j..];
        OccurrencesAppend(ps[..j], ps[j..], v);
        assert ps[..j][i] == v && ps[j..][0] == v;
        OccurrencesAt(ps[..j], i);
        OccurrencesAt(ps[j..], 0);
      }
    }
  }

  /** The pins allocated in a circuit with these pin lists and gate pin lists. */
  function AllPinsOf(inputPins: seq<nat>, outputPins: seq<nat>, ins: seq<seq<nat>>, outs: seq<seq<nat>>): seq<nat>
    requires |ins| == |outs|
  {
    inputPins + outputPins + GatePins(ins, outs, |ins|)
  }

  /** Every gate has its list of input pins and of output pins, as long as the gate declares. */
  ghost predicate GatesOk(gates: seq<LogicGate>, ins: seq<seq<nat>>, outs: seq<seq<nat>>)
  {
    |ins| == |gates| && |outs| == |gates| &&
    forall g :: 0 <= g < |gates| ==> |ins[g]| == gates[g].numInputs && |outs[g]| == gates[g].numOutputs
  }

  /** The pins `ps` are `1..=n`, each once, in some order. */
  ghost predicate PinsOk(n: nat, ps: seq<nat>)
  {
    forall v: nat :: Occurrences(ps, v) == if 1 <= v <= n then 1 else 0
  }

  /** A well-formed circuit: its gate pin lists agree with its gates and its pins are `1..=numPins`. */
  ghost predicate CircuitOk(gates: seq<LogicGate>, numPins: nat, inputPins: seq<nat>, outputPins: seq<nat>,
                            ins: seq<seq<nat>>, outs: seq<seq<nat>>)
  {
    GatesOk(gates, ins, outs) && PinsOk(numPins, AllPinsOf(inputPins, outputPins, ins, outs))
  }

  lemma PinsGrow(n: nat, na: nat, nb: nat, xs: seq<nat>, ys: seq<nat>, zs: seq<nat>, zs': seq<nat>)
    requires PinsOk(n, xs + ys + zs)
    requires zs' == zs + Consecutive(n, na) + Consecutive(n + na, nb)
    ensures PinsOk(n + na + nb, xs + ys + zs')
  {
    var c1, c2 := Consecutive(n, na), Consecutive(n + na, nb);
    assert xs + ys + zs' == (xs + ys + zs) + c1 + c2;
    forall v: nat
      ensures Occurrences(xs + ys + zs', v) == if 1 <= v <= n + na + nb then 1 else 0
    {
      OccurrencesAppend((xs + ys + zs) + c1, c2, v);
      OccurrencesAppend(xs + ys + zs, c1, v);
      OccurrencesConsecutive(n, na, v);
      OccurrencesConsecutive(n + na, nb, v);
    }
  }

  lemma OccurrencesSingle(p: nat, v: nat)
    ensures Occurrences([p], v) == if v == p then 1 else 0
  {
    assert [p][..0] == [];
  }

  lemma PinsInsert(n: nat, xs: seq<nat>, ys: seq<nat>, zs: seq<nat>)
    requires PinsOk(n, xs + ys + zs)
    ensures PinsOk(n + 1, xs + [n + 1] + ys + zs)
    ensures PinsOk(n + 1, xs + (ys + [n + 1]) + zs)
  {
    var s := xs + [n + 1] + ys + zs;
    forall v: nat
      ensures Occurrences(s, v) == if 1 <= v <= n + 1 then 1 else 0
    {
      OccurrencesAppend(xs + ys, zs, v);
      OccurrencesAppend(xs, ys, v);
      OccurrencesAppend(xs + [n + 1] + ys, zs, v);
      OccurrencesAppend(xs + [n + 1], ys, v);
      OccurrencesAppend(xs, [n + 1], v);
      OccurrencesSingle(n + 1, v);
    }
    var t := xs + (ys + [n + 1]) + zs;
    forall v: nat
      ensures Occurrences(t, v) == if 1 <= v <= n + 1 then 1 else 0
    {
      OccurrencesAppend(xs + ys, zs, v);
      OccurrencesAppend(xs, ys, v);
      OccurrencesAppend(xs + (ys + [n + 1]), zs, v);
      OccurrencesAppend(xs, ys + [n + 1], v);
      OccurrencesAppend(ys, [n + 1], v);
      OccurrencesSingle(n + 1, v);
    }
  }

  /** A new gate with fresh consecutive pins keeps the circuit well formed. */
  lemma AddGateOk(gates: seq<LogicGate>, numPins: nat, inputPins: seq<nat>, outputPins: seq<nat>,
                  ins: seq<seq<nat>>, outs: seq<seq<nat>>, gate: LogicGate)
    requires CircuitOk(gates, numPins, inputPins, outputPins, ins, outs)
    ensures CircuitOk(gates + [gate], numPins + gate.numInputs + gate.numOutputs, inputPins, outputPins,
                      ins + [Consecutive(numPins, gate.numInputs)],
                      outs + [Consecutive(numPins + gate.numInputs, gate.numOutputs)])
  {
    var a, b := Consecutive(numPins, gate.numInputs), Consecutive(numPins + gate.numInputs, gate.numOutputs);
    GatePinsAppend(ins, outs, a, b);
    PinsGrow(numPins, gate.numInputs, gate.numOutputs, inputPins, outputPins, GatePins(ins, outs, |ins|),
             GatePins(ins + [a], outs + [b], |ins| + 1));
  }

  /** A new input or output pin keeps the circuit well formed. */
  lemma AddPinOk(gates: seq<LogicGate>, numPins: nat, inputPins: seq<nat>, outputPins: seq<nat>,
                 ins: seq<seq<nat>>, outs: seq<seq<nat>>)
    requires CircuitOk(gates, numPins, inputPins, outputPins, ins, outs)
    ensures CircuitOk(gates, numPins + 1, inputPins + [numPins + 1], outputPins, ins, outs)
    ensures CircuitOk(gates, numPins + 1, inputPins, outputPins + [numPins + 1], ins, outs)
  {
    PinsInsert(numPins, inputPins, outputPins, GatePins(ins, outs, |ins|));
  }

  /** The pins of a well-formed circuit are between 1 and `numPins` and pairwise distinct. */
  lemma PinsOkDistinct(gates: seq<LogicGate>, numPins: nat, inputPins: seq<nat>, outputPins: seq<nat>,
                       ins: seq<seq<nat>>, outs: seq<seq<nat>>)
    requires CircuitOk(gates, numPins, inputPins, outputPins, ins, outs)
    ensures var ps := AllPinsOf(inputPins, outputPins, ins, outs);
      (forall i :: 0 <= i < |ps| ==> 1 <= ps[i] <= numPins) &&
      (forall i, j :: 0 <= i < j < |ps| ==> ps[i] != ps[j])
  {
    PinsDistinct(AllPinsOf(inputPins, outputPins, ins, outs), numPins);
  }

  class BooleanCircuit {
    var gates: seq<LogicGate>
    var numPins: nat
    var inputPins: seq<nat>
    var outputPins: seq<nat>
    var gateInputPins: seq<seq<nat>>
    var gateOutputPins: seq<seq<nat>>
    var connections: map<nat, nat>

    ghost predicate Valid()
      reads this
    {
      CircuitOk(gates, numPins, inputPins, outputPins, gateInputPins, gateOutputPins)
    }

    /** `new(ni, no)`: inputs `1..=ni`, outputs `ni+1..=ni+no`, no gate and no connection. */
    constructor (numInputs: nat, numOutputs: nat)
      ensures Valid()
      ensures numPins == numInputs + numOutputs && gates == [] && connections == map[]
      ensures inputPins == Consecutive(0, numInputs) && outputPins == Consecutive(numInputs, numOutputs)
      ensures gateInputPins == [] && gateOutputPins == []
    {
      gates := [];
      numPins := numInputs + numOutputs;
      inputPins := Consecutive(0, numInputs);
      outputPins := Consecutive(numInputs, numOutputs);
      gateInputPins := [];
      gateOutputPins := [];
      connections := map[];
      new;
      assert AllPinsOf(inputPins, outputPins, [], []) == inputPins + outputPins;
      forall v: nat
        ensures Occurrences(inputPins + outputPins, v) == if 1 <= v <= numPins then 1 else 0
      {
        OccurrencesAppend(inputPins, outputPins, v);
        OccurrencesConsecutive(0, numInputs, v);
        OccurrencesConsecutive(numInputs, numOutputs, v);
      }
    }

    /** `add_input`: one more pin, recorded as an input. */
    method AddInput() returns (pin: nat)
      requires Valid()
      modifies this
      ensures Valid()
      ensures numPins == old(numPins) + 1 && pin == numPins && inputPins == old(inputPins) + [pin]
      ensures outputPins == old(outputPins) && gates == old(gates) && connections == old(connections)
      ensures gateInputPins == old(gateInputPins) && gateOutputPins == old(gateOutputPins)
    {
      AddPinOk(gates, numPins, inputPins, outputPins, gateInputPins, gateOutputPins);
      numPins := numPins + 1;
      inputPins := inputPins + [numPins];
      pin := numPins;
    }

    /** `add_output`: one more pin, recorded as an output. */
    method AddOutput() returns (pin: nat)
      requires Valid()
      modifies this
      ensures Valid()
      ensures numPins == old(numPins) + 1 && pin == numPins && outputPins == old(outputPins) + [pin]
      ensures inputPins == old(inputPins) && gates == old(gates) && connections == old(connections)
      ensures gateInputPins == old(gateInputPins) && gateOutputPins == old(gateOutputPins)
    {
      AddPinOk(gates, numPins, inputPins, outputPins, gateInputPins, gateOutputPins);
      numPins := numPins + 1;
      outputPins := outputPins + [numPins];
      pin := numPins;
    }

    /**
     * `add_gate`: the new gate's number is the old gate count; it gets
     * `numInputs` fresh pins and then `numOutputs` fresh pins. The pin
     * lists of gate `g` are entry `g` of `gateInputPins` and `gateOutputPins`,
     * so a gate number that already has pins (the two panics) cannot occur.
     */
    method AddGate(gate: LogicGate) returns (index: nat)
      requires Valid()
      modifies this
      ensures Valid()
      ensures index == |old(gates)| && gates == old(gates) + [gate]
      ensures numPins == old(numPins) + gate.numInputs + gate.numOutputs
      ensures gateInputPins == old(gateInputPins) + [Consecutive(old(numPins), gate.numInputs)]
      ensures gateOutputPins == old(gateOutputPins) + [Consecutive(old(numPins) + gate.numInputs, gate.numOutputs)]
      ensures inputPins == old(inputPins) && outputPins == old(outputPins) && connections == old(connections)
    {
      AddGateOk(gates, numPins, inputPins, outputPins, gateInputPins, gateOutputPins, gate);
      index := |gates|;
      var ins := AllocatePins(gate.numInputs);
      gateInputPins := gateInputPins + [ins];
      var outs := AllocatePins(gate.numOutputs);
      gateOutputPins := gateOutputPins + [outs];
      gates := gates + [gate];
    }

    /** The `(0..count).map(...)` of `add_gate`: `count` pins, each one `numPins` after the bump. */
    method AllocatePins(count: nat) returns (pins: seq<nat>)
      modifies this
      ensures numPins == old(numPins) + count && pins == Consecutive(old(numPins), count)
      ensures gates == old(gates) && inputPins == old(inputPins) && outputPins == old(outputPins)
      ensures gateInputPins == old(gateInputPins) && gateOutputPins == old(gateOutputPins)
      ensures connections == old(connections)
    {
      pins := [];
      for i := 0 to count
        invariant numPins == old(numPins) + i && pins == Consecutive(old(numPins), i)
        invariant gates == old(gates) && inputPins == old(inputPins) && outputPins == old(outputPins)
        invariant gateInputPins == old(gateInputPins) && gateOutputPins == old(gateOutputPins)
        invariant connections == old(connections)
      {
        numPins := numPins + 1;
        pins := pins + [numPins];
      }
    }

    /** `connect`: a pin already connected makes it panic; otherwise only that pin's parent is recorded. */
    method Connect(pin: nat, parent: nat)
      requires pin !in connections
      modifies this
      ensures connections == old(connections)[pin := parent]
      ensures gates == old(gates) && numPins == old(numPins) && inputPins == old(inputPins) && outputPins == old(outputPins)
      ensures gateInputPins == old(gateInputPins) && gateOutputPins == old(gateOutputPins)
    {
      connections := connections[pin := parent];
    }
  }
}
