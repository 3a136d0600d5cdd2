/** The run-scoped state executors read and write under one mutex
    (core/agentgraph/executor.go).  Each method is one critical section. */
module RunState {
  import opened BranchValues

  datatype Memory = Memory(values: map<string, PortValues>, completed: set<string>) {
    function Outputs(node: string): PortValues {
      if node in values then values[node] else map[]
    }

    function With(node: string, outs: PortValues): Memory {
      Memory(values[node := outs], completed + {node})
    }

    predicate Fired(key: string) {
      "fired" in Outputs(key) && Outputs(key)["fired"] == VBool(true)
    }

    function Claimed(key: string): Memory {
      if Fired(key) then this else With(key, map["fired" := VBool(true)])
    }

    function Released(key: string): Memory {
      Memory(values - {key}, completed - {key})
    }
  }

  /** A type-asserted int port, zero when absent or of another type. */
  function IntPort(outs: PortValues, port: string): int {
    if port in outs && outs[port].VInt? then outs[port].i else 0
  }

  function StringPort(outs: PortValues, port: string): string {
    if port in outs && outs[port].VString? then outs[port].s else ""
  }

  class RunState {
    var values: map<string, PortValues>
    var completed: set<string>

    constructor ()
      ensures Value() == Memory(map[], {})
    {
      values, completed := map[], {};
    }

    ghost function Value(): Memory
      reads this
    {
      Memory(values, completed)
    }

    method SetOutputs(node: string, outputs: PortValues)
      modifies this
      ensures Value() == old(Value()).With(node, outputs)
    {
      values := values[node := outputs];
      completed := completed + {node};
    }

    method Outputs(node: string) returns (outs: PortValues)
      ensures outs == Value().Outputs(node)
    {
      outs := if node in values then values[node] else map[];
    }

    /** True only for the caller that flips the flag from unset to set. */
    method CompareAndSetOnce(key: string) returns (claimed: bool)
      modifies this
      ensures claimed == !old(Value()).Fired(key)
      ensures Value() == old(Value()).Claimed(key) && Value().Fired(key)
    {
      if key in values && "fired" in values[key] && values[key]["fired"] == VBool(true) {
        return false;
      }
      values := values[key := map["fired" := VBool(true)]];
      completed := completed + {key};
      return true;
    }

    method ReleaseOnce(key: string)
      modifies this
      ensures Value() == old(Value()).Released(key) && !Value().Fired(key)
    {
      values := values - {key};
      completed := completed - {key};
    }
  }

  /** What the three writers do to what any node reads back. */
  lemma MemoryLaws(mem: Memory, key: string, outs: PortValues, node: string)
    ensures mem.With(key, outs).Outputs(node) == if node == key then outs else mem.Outputs(node)
    ensures mem.Released(key).Outputs(node) == if node == key then map[] else mem.Outputs(node)
    ensures mem.Claimed(key).Outputs(node) ==
      if node == key && !mem.Fired(key) then map["fired" := VBool(true)] else mem.Outputs(node)
    ensures node in mem.With(key, outs).completed <==> node == key || node in mem.completed
    ensures node in mem.Released(key).completed <==> node != key && node in mem.completed
    ensures mem.Fired(key) <==> "fired" in mem.Outputs(key) && mem.Outputs(key)["fired"] == VBool(true)
  {
  }

  /** A slot is claimed by the first caller only, and freed by a release. */
  lemma ClaimOnce(mem: Memory, key: string)
    ensures mem.Claimed(key).Fired(key) && mem.Claimed(key).Claimed(key) == mem.Claimed(key)
    ensures !mem.Released(key).Fired(key) && mem.Claimed(key).Released(key).Outputs(key) == map[]
  {
  }
}
