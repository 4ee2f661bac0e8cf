/**
 * The browser's `localStorage`: one mutable map from keys to strings, and
 * whether the browser refuses it (storage disabled, a private window that
 * forbids it, a full quota), in which case every call throws.
 */
module Storage {
  import opened Wrappers

  /** The value stored under `key`, if any (`getItem` returning a string or null). */
  function Lookup(entries: map<string, string>, key: string): Option<string> {
    if key in entries then Some(entries[key]) else None
  }

  class LocalStorage {
    var entries: map<string, string>
    /** None for a working store; otherwise the message of the error every call throws. */
    const fault: Option<string>

    constructor (initial: map<string, string>, fault: Option<string>)
      ensures entries == initial && this.fault == fault
    {
      entries := initial;
      this.fault := fault;
    }

    /** `getItem`: the stored value, or none for an absent key; `Err` when the call throws. */
    method GetItem(key: string) returns (value: Result<Option<string>>)
      ensures value.Err? <==> fault.Some?
      ensures value.Err? ==> value.message == fault.value
      ensures value.Ok? ==> (value.value.Some? <==> key in entries)
      ensures value.Ok? && value.value.Some? ==> value.value.value == entries[key]
    {
      if fault.Some? {
        value := Err(fault.value);
      } else if key in entries {
        value := Ok(Some(entries[key]));
      } else {
        value := Ok(None);
      }
    }

    /** `setItem`: one key written and nothing else changed, or the message thrown with nothing changed. */
    method SetItem(key: string, value: string) returns (thrown: Option<string>)
      modifies this
      ensures thrown == fault
      ensures entries == if fault.Some? then old(entries) else old(entries)[key := value]
    {
      thrown := fault;
      if fault.None? {
        entries := entries[key := value];
      }
    }

    /** `removeItem`: one key deleted and nothing else changed, or the message thrown with nothing changed. */
    method RemoveItem(key: string) returns (thrown: Option<string>)
      modifies this
      ensures thrown == fault
      ensures entries == if fault.Some? then old(entries) else old(entries) - {key}
    {
      thrown := fault;
      if fault.None? {
        entries := entries - {key};
      }
    }
  }
}
