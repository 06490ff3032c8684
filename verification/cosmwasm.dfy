/**
 The part of the CosmWasm host interface both contracts rely on: caller
 addresses, responses carrying attributes, the error types, and a storage
 item that holds one value under a fixed key.
 */
module CosmWasm {
  import opened Base

  /** A caller address. The logic only ever compares two of them. */
  datatype Addr = Addr(value: string)

  /** Storage errors. Loading an item that was never saved is the only one the logic can meet. */
  datatype StdError = NotFound

  /** The contracts' error type: the failed owner check, and storage errors carried over by `?`. */
  datatype ContractError = Unauthorized | Std(std: StdError)

  /** One key/value pair of a response's event attributes. */
  datatype Attribute = Attribute(key: string, value: string)

  /** A successful reply; only its attributes are modelled. */
  datatype Response = Response(attributes: seq<Attribute>)

  /** The outcome of `Item::update`: the action's result and the storage item afterwards. */
  datatype Updated<S> = Updated(result: Result<S, ContractError>, store: Option<S>)

  /** The outcome of a mutating entry point: its reply and the storage item afterwards. */
  datatype Exec<S> = Exec(reply: Result<Response, ContractError>, store: Option<S>)

  /** The reply every execute handler gives: a single `action` attribute. */
  function ActionReply(action: string): Response
  {
    Response([Attribute("action", action)])
  }

  /**
   `Item::update`: load the stored value, run the action on it, and save
   what it returns. A failed load or a failed action writes nothing.
   */
  function Update<S>(store: Option<S>, action: S -> Result<S, ContractError>): (u: Updated<S>)
    ensures store.None? ==> u.result == Err(Std(NotFound))
    ensures store.Some? ==> u.result == action(store.value)
    ensures u.result.Ok? ==> u.store == Some(u.result.value)
    ensures u.result.Err? ==> u.store == store
  {
    match store
    case None => Updated(Err(Std(NotFound)), store)
    case Some(s) =>
      match action(s)
      case Ok(s') => Updated(Ok(s'), Some(s'))
      case Err(e) => Updated(Err(e), store)
  }

  /**
   The shape shared by every execute handler of both contracts: update the
   item with a closure that rejects any sender other than the stored owner
   and otherwise applies `apply`; on success reply with `action`.
   */
  function OwnerGated<S>(store: Option<S>, sender: Addr, owner: S -> Addr, apply: S -> S, action: string): (e: Exec<S>)
    ensures e.reply.Err? ==> e.store == store
    ensures store.None? ==> e.reply == Err(Std(NotFound))
    ensures store.Some? && sender != owner(store.value) ==> e.reply == Err(Unauthorized)
    ensures store.Some? && sender == owner(store.value) ==>
              e.reply == Ok(ActionReply(action)) && e.store == Some(apply(store.value))
  {
    var u := Update(store, (s: S) => if sender != owner(s) then Err(Unauthorized) else Ok(apply(s)));
    match u.result
    case Ok(_) => Exec(Ok(ActionReply(action)), u.store)
    case Err(err) => Exec(Err(err), u.store)
  }
}
