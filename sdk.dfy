/**
 * The part of the Terraform plugin SDK's `schema.ResourceData` the legacy
 * adapters use: the configured attributes they read with `Get`, the resource
 * id (`Id` / `SetId`) and the state attributes they write with `Set`.
 */
module Sdk {
  import opened Wrappers
  import opened Decimal
  import opened Api

  /** A value stored in a state attribute. */
  datatype Value = StringValue(s: string) | IntValue(n: int)

  /**
   * The configured attributes as `Get` returns them. `ttl` is None when the
   * configuration leaves it out; the schema's default then applies.
   */
  datatype Config = Config(name: string, rtype: string, data: string, ttl: Option<Int64>)

  class ResourceData {
    /** What `Get` reads; the adapters never change it. */
    const config: Config
    /** The state attributes whose `Set` the SDK rejects (for instance on a type mismatch). */
    const refused: set<string>
    /** The resource id, "" until `SetId` is called. */
    var id: string
    /** The state attributes written so far. */
    var state: map<string, Value>

    constructor (config: Config, refused: set<string>, id: string, state: map<string, Value>)
      ensures this.config == config && this.refused == refused
      ensures this.id == id && this.state == state
    {
      this.config := config;
      this.refused := refused;
      this.id := id;
      this.state := state;
    }

    /** SetId: replaces the id and nothing else. */
    method SetId(v: string)
      modifies this`id
      ensures id == v
    {
      id := v;
    }

    /**
     * Set: writes one attribute, or reports the SDK's error for that key and
     * leaves the state as it was.
     */
    method Set(key: string, value: Value) returns (err: Option<Error>)
      modifies this`state
      ensures key in refused ==> err == Some(SetError(key)) && state == old(state)
      ensures key !in refused ==> err == None && state == old(state)[key := value]
    {
      if key in refused {
        return Some(SetError(key));
      }
      state := state[key := value];
      return None;
    }
  }
}
