/** Tool-call deltas and their merging (src/vllm_tool_parser/mod.rs). */
module Output {
  import opened Wrappers

  datatype ToolCallDelta = ToolCallDelta(toolIndex: nat, name: Option<string>, arguments: string)

  datatype ToolParserOutput = ToolParserOutput(normalText: string, calls: seq<ToolCallDelta>) {
    function Append(other: ToolParserOutput): ToolParserOutput {
      ToolParserOutput(normalText + other.normalText, calls + other.calls)
    }

    function AddText(text: string): ToolParserOutput {
      this.(normalText := normalText + text)
    }

    function AddCall(call: ToolCallDelta): ToolParserOutput {
      this.(calls := calls + [call])
    }
  }

  const NoOutput := ToolParserOutput("", [])

  datatype ParseError = BadSyntax | NoActiveCall | UnfinishedCall

  // -------- The meaning of merging --------

  /** Position of the entry for `index`, or `|calls|`. */
  function Slot(calls: seq<ToolCallDelta>, index: nat): (k: nat)
    ensures k <= |calls|
    ensures k < |calls| ==> calls[k].toolIndex == index
    ensures forall j :: 0 <= j < k ==> calls[j].toolIndex != index
  {
    if calls == [] || calls[0].toolIndex == index then 0 else 1 + Slot(calls[1..], index)
  }

  function MergeInto(existing: ToolCallDelta, delta: ToolCallDelta): ToolCallDelta {
    ToolCallDelta(existing.toolIndex,
                  if existing.name.None? then delta.name else existing.name,
                  existing.arguments + delta.arguments)
  }

  /** One merging step: extend the call with the delta's index, or open a new one. */
  function Absorb(merged: seq<ToolCallDelta>, delta: ToolCallDelta): seq<ToolCallDelta> {
    var k := Slot(merged, delta.toolIndex);
    if k < |merged| then merged[k := MergeInto(merged[k], delta)] else merged + [delta]
  }

  function Coalesce(calls: seq<ToolCallDelta>): seq<ToolCallDelta> {
    if calls == [] then []
    else Absorb(Coalesce(calls[..|calls| - 1]), calls[|calls| - 1])
  }

  lemma CoalesceSnoc(calls: seq<ToolCallDelta>, delta: ToolCallDelta)
    ensures Coalesce(calls + [delta]) == Absorb(Coalesce(calls), delta)
  {
    assert (calls + [delta])[..|calls|] == calls;
  }

  lemma {:induction false} CoalesceAppend(a: seq<ToolCallDelta>, b: seq<ToolCallDelta>, more: seq<ToolCallDelta>)
    requires Coalesce(a) == Coalesce(b)
    ensures Coalesce(a + more) == Coalesce(b + more)
    decreases |more|
  {
    hide Absorb, Coalesce;
    if more == [] {
      assert a + more == a && b + more == b;
    } else {
      var init, last := more[..|more| - 1], more[|more| - 1];
      CoalesceAppend(a, b, init);
      CoalesceSnoc(a + init, last);
      CoalesceSnoc(b + init, last);
      assert a + more == a + init + [last] && b + more == b + init + [last];
    }
  }

  lemma SlotIs(calls: seq<ToolCallDelta>, index: nat, k: nat)
    requires k < |calls| && calls[k].toolIndex == index
    requires forall j :: 0 <= j < k ==> calls[j].toolIndex != index
    ensures Slot(calls, index) == k
  {
  }

  lemma AbsorbJoin(m: seq<ToolCallDelta>, index: nat, x: string, y: string)
    ensures Absorb(Absorb(m, ToolCallDelta(index, None, x)), ToolCallDelta(index, None, y))
         == Absorb(m, ToolCallDelta(index, None, x + y))
  {
    var k := Slot(m, index);
    var once := Absorb(m, ToolCallDelta(index, None, x));
    SlotIs(once, index, k);
    if k < |m| {
      assert m[k].arguments + x + y == m[k].arguments + (x + y);
    }
  }

  /** Two argument fragments of one call merge like their concatenation. */
  lemma CoalesceJoin(calls: seq<ToolCallDelta>, index: nat, x: string, y: string)
    ensures Coalesce(calls + [ToolCallDelta(index, None, x)] + [ToolCallDelta(index, None, y)])
         == Coalesce(calls + [ToolCallDelta(index, None, x + y)])
  {
    CoalesceSnoc(calls, ToolCallDelta(index, None, x));
    CoalesceSnoc(calls + [ToolCallDelta(index, None, x)], ToolCallDelta(index, None, y));
    CoalesceSnoc(calls, ToolCallDelta(index, None, x + y));
    AbsorbJoin(Coalesce(calls), index, x, y);
  }

  /** All argument text sent for one index, in order. */
  function ArgumentsOf(calls: seq<ToolCallDelta>, index: nat): string {
    if calls == [] then ""
    else
      var last := calls[|calls| - 1];
      ArgumentsOf(calls[..|calls| - 1], index) + if last.toolIndex == index then last.arguments else ""
  }

  /** The first name sent for one index. */
  function FirstNameOf(calls: seq<ToolCallDelta>, index: nat): Option<string> {
    if calls == [] then None
    else
      var last := calls[|calls| - 1];
      var before := FirstNameOf(calls[..|calls| - 1], index);
      if before.None? && last.toolIndex == index then last.name else before
  }

  ghost predicate MergedFrom(merged: seq<ToolCallDelta>, calls: seq<ToolCallDelta>) {
    && (forall j, k :: 0 <= j < k < |merged| ==> merged[j].toolIndex != merged[k].toolIndex)
    && (forall k :: 0 <= k < |merged| ==>
          && merged[k].arguments == ArgumentsOf(calls, merged[k].toolIndex)
          && merged[k].name == FirstNameOf(calls, merged[k].toolIndex))
  }

  lemma AbsentIndex(calls: seq<ToolCallDelta>, index: nat)
    requires forall j :: 0 <= j < |calls| ==> calls[j].toolIndex != index
    ensures ArgumentsOf(calls, index) == "" && FirstNameOf(calls, index) == None
  {
    if calls != [] {
      AbsentIndex(calls[..|calls| - 1], index);
    }
  }

  /** Every index sent has exactly one merged entry, and no other index has one. */
  lemma {:induction false} CoalesceIndices(calls: seq<ToolCallDelta>, index: nat)
    ensures (exists j :: 0 <= j < |calls| && calls[j].toolIndex == index)
       <==> Slot(Coalesce(calls), index) < |Coalesce(calls)|
  {
    if calls != [] {
      var init, last := calls[..|calls| - 1], calls[|calls| - 1];
      CoalesceIndices(init, index);
      var m := Coalesce(init);
      var k := Slot(m, last.toolIndex);
      if last.toolIndex == index {
        SlotIs(Coalesce(calls), index, k);
      } else if j :| 0 <= j < |init| && init[j].toolIndex == index {
        assert calls[j].toolIndex == index;
        SlotIs(Coalesce(calls), index, Slot(m, index));
      }
    }
  }

  lemma AbsorbKeepsMeaning(merged: seq<ToolCallDelta>, init: seq<ToolCallDelta>, last: ToolCallDelta)
    requires MergedFrom(merged, init)
    requires Slot(merged, last.toolIndex) == |merged| ==>
               ArgumentsOf(init, last.toolIndex) == "" && FirstNameOf(init, last.toolIndex) == None
    ensures MergedFrom(Absorb(merged, last), init + [last])
  {
    hide Slot;
    assert (init + [last])[..|init|] == init;
    var next, k := Absorb(merged, last), Slot(merged, last.toolIndex);
    forall j | 0 <= j < |next|
      ensures next[j].arguments == ArgumentsOf(init + [last], next[j].toolIndex)
      ensures next[j].name == FirstNameOf(init + [last], next[j].toolIndex)
    {
      if j < |merged| {
        assert merged[j].arguments == ArgumentsOf(init, merged[j].toolIndex);
      }
    }
  }

  /** Merging keeps, per index, the first name and the whole argument text. */
  lemma {:induction false} CoalesceMeaning(calls: seq<ToolCallDelta>)
    ensures MergedFrom(Coalesce(calls), calls)
  {
    if calls != [] {
      var init, last := calls[..|calls| - 1], calls[|calls| - 1];
      CoalesceMeaning(init);
      if Slot(Coalesce(init), last.toolIndex) == |Coalesce(init)| {
        CoalesceIndices(init, last.toolIndex);
        AbsentIndex(init, last.toolIndex);
      }
      AbsorbKeepsMeaning(Coalesce(init), init, last);
      assert init + [last] == calls;
    }
  }

  // -------- The in-place merge --------

  ghost predicate Stores(merged: map<nat, ToolCallDelta>, order: seq<nat>, calls: seq<ToolCallDelta>) {
    && |order| == |calls|
    && (forall j, k :: 0 <= j < k < |order| ==> order[j] != order[k])
    && (forall k :: 0 <= k < |order| ==>
          order[k] in merged && merged[order[k]] == calls[k] && calls[k].toolIndex == order[k])
    && (forall index :: index in merged ==> index in order)
  }

  /** One loop step of the merge keeps the map and the order in step with `Absorb`. */
  lemma StoresNext(merged: map<nat, ToolCallDelta>, order: seq<nat>, calls: seq<ToolCallDelta>, call: ToolCallDelta)
    requires Stores(merged, order, calls)
    ensures call.toolIndex in merged ==>
              Stores(merged[call.toolIndex := MergeInto(merged[call.toolIndex], call)], order, Absorb(calls, call))
    ensures call.toolIndex !in merged ==>
              Stores(merged[call.toolIndex := call], order + [call.toolIndex], Absorb(calls, call))
  {
    if call.toolIndex in merged {
      var k :| 0 <= k < |order| && order[k] == call.toolIndex;
      SlotIs(calls, call.toolIndex, k);
    } else {
      assert Slot(calls, call.toolIndex) == |calls|;
    }
  }

  /** `ToolParserOutput::coalesce_calls`: a keyed map plus the order keys were first seen in. */
  method CoalesceCalls(output: ToolParserOutput) returns (result: ToolParserOutput)
    ensures result == output.(calls := Coalesce(output.calls))
  {
    hide Absorb;
    assert Coalesce([]) == [];
    hide Coalesce;
    var merged: map<nat, ToolCallDelta> := map[];
    var order: seq<nat> := [];
    for n := 0 to |output.calls|
      invariant Stores(merged, order, Coalesce(output.calls[..n]))
    {
      var call := output.calls[n];
      StoresNext(merged, order, Coalesce(output.calls[..n]), call);
      CoalesceSnoc(output.calls[..n], call);
      assert output.calls[..n + 1] == output.calls[..n] + [call];
      if call.toolIndex in merged {
        merged := merged[call.toolIndex := MergeInto(merged[call.toolIndex], call)];
      } else {
        order := order + [call.toolIndex];
        merged := merged[call.toolIndex := call];
      }
    }
    assert output.calls[..|output.calls|] == output.calls;
    var calls: seq<ToolCallDelta> := [];
    for n := 0 to |order|
      invariant calls == Coalesce(output.calls)[..n]
      invariant forall k :: n <= k < |order| ==> order[k] in merged && merged[order[k]] == Coalesce(output.calls)[k]
    {
      if order[n] in merged {
        calls := calls + [merged[order[n]]];
        merged := merged - {order[n]};
      }
    }
    result := output.(calls := calls);
  }
}
