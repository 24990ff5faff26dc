// The engine-node registries (src/engine_node.cpp): the table of node types
// the editor can create, filled once per type, and the public parameters
// each kernel registers under its name. The factory stored with a type
// (`clone`) is not modelled.
module EngineNodes {
  import opened Parameters
  import ParameterCache

  /** `NodeData`: a node type's name, display name and pin counts; an input
      count of -1 means the inputs grow as links arrive. */
  datatype NodeData = NodeData(ntype: string, displayName: string, inputs: int, outputs: int)

  class NodeTypeRegistry {
    var nodeData: map<string, NodeData>

    constructor ()
      ensures nodeData == map[]
    {
      nodeData := map[];
    }

    /** `register_node_type`: emplaces the type's data, so a name registered
        before keeps its first entry. */
    method RegisterNodeType(name: string, displayName: string, inputs: int, outputs: int)
      modifies this
      ensures nodeData == ParameterCache.Emplace(old(nodeData), name, NodeData(name, displayName, inputs, outputs))
    {
      if name !in nodeData {
        nodeData := nodeData[name := NodeData(name, displayName, inputs, outputs)];
      }
    }
  }

  /** Registering a name twice keeps what the first registration stored. */
  method RegisterTwice(r: NodeTypeRegistry, name: string, d1: string, i1: int, o1: int,
                       d2: string, i2: int, o2: int)
    requires name !in r.nodeData
    modifies r
    ensures r.nodeData == old(r.nodeData)[name := NodeData(name, d1, i1, o1)]
  {
    r.RegisterNodeType(name, d1, i1, o1);
    r.RegisterNodeType(name, d2, i2, o2);
  }

  /** The shared parameter groups of the engine nodes. */
  class EngineParams {
    var params: map<string, map<string, Parameter>>

    constructor ()
      ensures params == map[]
    {
      params := map[];
    }

    /** `register_params(k)`: the group named after the kernel becomes the
        kernel's public parameters, replacing any earlier group of that name;
        every other group is kept. */
    method RegisterParams(kernelName: string, publicParams: map<string, Parameter>)
      modifies this
      ensures params == old(params)[kernelName := publicParams]
      ensures forall g :: g in old(params) && g != kernelName ==> g in params && params[g] == old(params)[g]
    {
      params := params[kernelName := publicParams];
    }
  }
}
