/**
 * The worker of the `simple1` example (examples/simple1/src/node.rs): it
 * keeps the chunk id and adds 100 to every value. The element type is not
 * shown there; it is taken as `u64`, and since a debug build panics when
 * `value + 100` overflows, every value must leave room for the addition.
 */
module Simple1Node {
  import opened MachineInts

  datatype InputData = InputData(chunck: u64, data: seq<u64>)

  datatype OutputData = OutputData(chunck: u64, data: seq<u64>)

  /** Adding 100 to each value stays within `u64`. */
  predicate NoOverflow(data: seq<u64>) {
    forall i :: 0 <= i < |data| ==> data[i] as int + 100 < U64_LIMIT
  }

  /** The values of `data`, each plus 100, in the same order. */
  function Shifted(data: seq<u64>): seq<u64>
    requires NoOverflow(data)
    decreases |data|
  {
    if data == [] then [] else [data[0] + 100] + Shifted(data[1..])
  }

  lemma {:induction false} ShiftedAt(data: seq<u64>, i: nat)
    requires NoOverflow(data)
    ensures |Shifted(data)| == |data|
    ensures i < |data| ==> Shifted(data)[i] as int == data[i] as int + 100
    decreases |data|
  {
    if data != [] {
      assert NoOverflow(data[1..]);
      ShiftedAt(data[1..], if i > 0 then i - 1 else 0);
    }
  }

  /**
   * `process_new_data_from_server` (lines 26-33): the result starts with the
   * input's chunk id and no values, and one `push` per input value appends
   * that value plus 100.
   */
  method ProcessNewDataFromServer(input: InputData) returns (result: OutputData)
    requires NoOverflow(input.data)
    ensures result.chunck == input.chunck
    ensures |result.data| == |input.data|
    ensures forall i :: 0 <= i < |input.data| ==> result.data[i] as int == input.data[i] as int + 100
    ensures result.data == Shifted(input.data)
  {
    result := OutputData(input.chunck, []);
    var k := 0;
    while k < |input.data|
      invariant 0 <= k <= |input.data|
      invariant result.chunck == input.chunck
      invariant |result.data| == k
      invariant forall i :: 0 <= i < k ==> result.data[i] as int == input.data[i] as int + 100
    {
      var value := input.data[k];
      result := result.(data := result.data + [value + 100]);
      k := k + 1;
    }
    ShiftedAt(input.data, 0);
    forall i | 0 <= i < |input.data|
      ensures Shifted(input.data)[i] == result.data[i]
    {
      ShiftedAt(input.data, i);
    }
  }
}
