/** Session history entries, as far as the context machinery looks at them. */
module History {

  datatype Option<+T> = None | Some(value: T)

  datatype Role = User | Assistant | System | Tool

  /**
    `native` is the native_tool_call flag, `callId` the (possibly empty) call_id, and
    `compaction` the number of the stored turns file a summary entry stands for.
  */
  datatype Entry = Entry(
    role: Role,
    native: bool,
    callId: string,
    content: string,
    pending: bool := false,
    compaction: Option<nat> := None)

  type Step = seq<Entry>

  function Flatten(steps: seq<Step>): seq<Entry> {
    if |steps| == 0 then [] else Flatten(steps[..|steps| - 1]) + steps[|steps| - 1]
  }

  lemma FlattenExtend(steps: seq<Step>, step: Step)
    ensures Flatten(steps + [step]) == Flatten(steps) + step
  {
    assert (steps + [step])[..|steps|] == steps;
  }

  lemma {:induction false} FlattenAppend(front: seq<Step>, back: seq<Step>)
    ensures Flatten(front + back) == Flatten(front) + Flatten(back)
    decreases |back|
  {
    if |back| == 0 {
      assert front + back == front;
    } else {
      hide Flatten;
      var init, last := back[..|back| - 1], back[|back| - 1];
      FlattenAppend(front, init);
      FlattenExtend(front + init, last);
      FlattenExtend(init, last);
      assert init + [last] == back && (front + init) + [last] == front + back;
    }
  }
}
