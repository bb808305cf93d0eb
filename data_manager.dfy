/** The data manager: a registry of data nodes, keyed by name, that all
    share one set of tracking settings. */
module DataManager {

  /** A data node, reduced to what the manager forwards to it: the values
      added since the last reset, and how many resets it has seen. */
  class DataNode {
    var values: seq<int>
    var resets: nat

    constructor()
      ensures values == [] && resets == 0
    {
      values := [];
      resets := 0;
    }

    method Add(extra: seq<int>)
      modifies this
      ensures values == old(values) + extra && resets == old(resets)
    {
      values := values + extra;
    }

    method Reset()
      modifies this
      ensures values == [] && resets == old(resets) + 1
    {
      values := [];
      resets := resets + 1;
    }
  }

  class DataManager {
    var nodeMap: map<string, DataNode>

    /** Every name owns its own node. */
    ghost predicate Valid()
      reads this
    {
      forall a, b :: a in nodeMap && b in nodeMap && a != b ==> nodeMap[a] != nodeMap[b]
    }

    constructor()
      ensures Valid() && nodeMap == map[]
    {
      nodeMap := map[];
    }

    /** The number of nodes, one per registered name. */
    function GetSize(): (n: nat)
      reads this
      ensures n == |nodeMap.Keys|
    {
      |nodeMap|
    }

    function HasNode(name: string): (b: bool)
      reads this
      ensures b <==> name in nodeMap.Keys
    {
      name in nodeMap
    }

    /** Registers a fresh node under a name not yet in use. */
    method New(name: string) returns (node: DataNode)
      requires Valid() && !HasNode(name)
      modifies this
      ensures Valid()
      ensures fresh(node) && node.values == [] && node.resets == 0
      ensures nodeMap == old(nodeMap)[name := node]
      ensures HasNode(name) && GetSize() == old(GetSize()) + 1
    {
      node := new DataNode();
      nodeMap := nodeMap[name := node];
      assert nodeMap[name] == node;
    }

    /** Removes a registered name; its node is not destroyed. */
    method Delete(name: string)
      requires Valid() && HasNode(name)
      modifies this
      ensures Valid()
      ensures nodeMap == old(nodeMap) - {name}
      ensures !HasNode(name) && GetSize() == old(GetSize()) - 1
    {
      nodeMap := nodeMap - {name};
      assert old(nodeMap).Keys == nodeMap.Keys + {name};
    }

    /** The node registered under a name that must be present. */
    function Get(name: string): (node: DataNode)
      requires HasNode(name)
      reads this
      ensures node in nodeMap.Values
    {
      nodeMap[name]
    }

    /** Adds values to the node registered under a name that must be
        present; no other node changes. */
    method AddData(name: string, extra: seq<int>)
      requires Valid() && HasNode(name)
      modifies nodeMap[name]
      ensures nodeMap[name].values == old(nodeMap[name].values) + extra
      ensures forall n :: n in nodeMap && n != name ==> nodeMap[n].values == old(nodeMap[n].values)
    {
      nodeMap[name].Add(extra);
    }

    /** Resets every node once; the set of names does not change. */
    method ResetAll()
      requires Valid()
      modifies nodeMap.Values
      ensures nodeMap == old(nodeMap)
      ensures forall n :: n in nodeMap ==>
        nodeMap[n].values == [] && nodeMap[n].resets == old(nodeMap[n].resets) + 1
    {
      var todo := nodeMap.Keys;
      while todo != {}
        invariant todo <= nodeMap.Keys
        invariant forall n :: n in nodeMap && n !in todo ==>
          nodeMap[n].values == [] && nodeMap[n].resets == old(nodeMap[n].resets) + 1
        invariant forall n :: n in todo ==> nodeMap[n].resets == old(nodeMap[n].resets)
        decreases todo
      {
        var k :| k in todo;
        nodeMap[k].Reset();
        todo := todo - {k};
      }
    }
  }
}
