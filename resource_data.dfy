/** The host's view of one resource instance: the attributes recorded for it
    before this operation, the attributes as they stand now (configuration
    merged with what the operation has written), and its id. */
module ResourceState {
  import opened Values

  /** The host refused a write because the value does not have the
      attribute's kind. */
  datatype SetError = SetError(key: Key)

  class ResourceData {
    var id: string
    var state: map<Key, Value>
    const prior: map<Key, Value>

    constructor (id: string, prior: map<Key, Value>, state: map<Key, Value>)
      ensures this.id == id && this.prior == prior && this.state == state
    {
      this.id := id;
      this.prior := prior;
      this.state := state;
    }

    /** The value of `k` when it is set. */
    function GetOk(k: Key): (r: Option<Value>)
      reads this
      ensures r.Some? <==> k in state
      ensures r.Some? ==> r.value == state[k]
    {
      Lookup(state, k)
    }

    /** `k` differs from the value recorded before this operation. */
    predicate HasChange(k: Key)
      reads this
    {
      Lookup(prior, k) != Lookup(state, k)
    }

    /** Writes `v` under `k`, or clears `k` when `v` is missing; a value of
        the wrong kind is refused and nothing changes. */
    method Set(k: Key, v: Option<Value>) returns (err: Option<SetError>)
      modifies this`state
      ensures err == if Accepts(k, v) then None else Some(SetError(k))
      ensures state == if Accepts(k, v) then Put(old(state), k, v) else old(state)
    {
      if Accepts(k, v) {
        state := Put(state, k, v);
        err := None;
      } else {
        err := Some(SetError(k));
      }
    }

    method SetId(s: string)
      modifies this`id
      ensures id == s
    {
      id := s;
    }
  }
}
