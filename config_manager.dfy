/** The configuration manager: a registry of named objects of one managed
    type, with a "current object" that configuration commands act on. */
module ConfigManager {

  /** An object of the managed type. Its contents belong to the callback,
      which this model does not see. */
  class Managed {
    constructor()
    {
    }
  }

  class ConfigManager {
    var nameMap: map<string, Managed>
    var curObj: Managed?
    const typeKeyword: string
    const commandKeyword: string
    /** The command handler: given the current object and the command
        text, says whether the command succeeded. */
    const callback: (Managed, string) -> bool

    /** Each name owns its own object, and the current object, if any, is
        one of them. */
    ghost predicate Valid()
      reads this
    {
      && (curObj != null ==> curObj in nameMap.Values)
      && forall a, b :: a in nameMap && b in nameMap && a != b ==> nameMap[a] != nameMap[b]
    }

    constructor(typeKeyword: string, commandKeyword: string, callback: (Managed, string) -> bool)
      ensures Valid()
      ensures nameMap == map[] && curObj == null
      ensures this.typeKeyword == typeKeyword && this.commandKeyword == commandKeyword
      ensures this.callback == callback
    {
      this.typeKeyword := typeKeyword;
      this.commandKeyword := commandKeyword;
      this.callback := callback;
      nameMap := map[];
      curObj := null;
    }

    /** Builds a new object under `name` and makes it current. A name that
        is already taken is reported (`replaced`) and its old object is
        dropped in favour of the new one. */
    method NewObject(name: string) returns (replaced: bool)
      requires Valid()
      modifies this
      ensures Valid()
      ensures replaced <==> name in old(nameMap)
      ensures curObj != null && fresh(curObj)
      ensures nameMap == old(nameMap)[name := curObj]
    {
      replaced := name in nameMap;
      var obj := new Managed();
      curObj := obj;
      nameMap := nameMap[name := obj];
      assert nameMap[name] == obj;
    }

    /** Makes the object named `name` current. A missing name is reported
        (`missing`) and nothing changes. */
    method UseObject(name: string) returns (missing: bool)
      requires Valid()
      modifies this
      ensures Valid()
      ensures nameMap == old(nameMap)
      ensures missing <==> name !in nameMap
      ensures missing ==> curObj == old(curObj)
      ensures !missing ==> curObj == nameMap[name]
    {
      if name !in nameMap {
        return true;
      }
      curObj := nameMap[name];
      return false;
    }

    /** Hands `command` to the callback for the current object. Without a
        current object the command is reported and fails. */
    method CommandCallback(command: string) returns (ok: bool)
      ensures curObj == null ==> !ok
      ensures curObj != null ==> ok == callback(curObj, command)
    {
      if curObj == null {
        return false;
      }
      ok := callback(curObj, command);
    }
  }

  /** A command always fails before any object has been built, and after
      building one the callback decides. */
  method CommandNeedsObject(callback: (Managed, string) -> bool, name: string, command: string)
    returns (before: bool, after: bool, obj: Managed)
    ensures !before
    ensures after == callback(obj, command)
  {
    var manager := new ConfigManager("type", "command", callback);
    before := manager.CommandCallback(command);
    var _ := manager.NewObject(name);
    obj := manager.curObj;
    after := manager.CommandCallback(command);
  }
}
