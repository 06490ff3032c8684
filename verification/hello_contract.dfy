/**
 The hello-world contract: a stored greeting and its owner. The greeting is
 always the fixed prefix followed by the text last sent; only the owner may
 replace it, and anyone may read it.
 */
module HelloContract {
  import opened Base
  import opened CosmWasm

  datatype State = State(greetingMessage: string, owner: Addr)

  datatype InstantiateMsg = InstantiateMsg(message: string)

  datatype ExecuteMsg = Update(message: string)

  datatype QueryMsg = GetMessage

  datatype GetMessageResponse = GetMessageResponse(message: string)

  /** The prefix both `format!` calls write, misspelling included. */
  const GreetingPrefix: string := "Hello Wolrd! "

  /** `format!("Hello Wolrd! {}", message)`. */
  function Greeting(message: string): (g: string)
    ensures |g| == |GreetingPrefix| + |message|
    ensures g[..|GreetingPrefix|] == GreetingPrefix
    ensures g[|GreetingPrefix|..] == message
  {
    GreetingPrefix + message
  }

  /** The text a greeting was formatted from, when it carries the prefix. */
  function StripGreeting(g: string): (r: Option<string>)
    ensures r.Some? ==> Greeting(r.value) == g
  {
    if |GreetingPrefix| <= |g| && g[..|GreetingPrefix|] == GreetingPrefix
    then Some(g[|GreetingPrefix|..])
    else None
  }

  /** Formatting loses nothing: the message can be read back from its greeting. */
  lemma StripGreetingInverts(message: string)
    ensures StripGreeting(Greeting(message)) == Some(message)
  {
  }

  /**
   `instantiate`: the sender owns a greeting made from the message. The
   reply's `greeting_message` attribute carries the raw message, not the
   stored greeting.
   */
  function Instantiate(sender: Addr, msg: InstantiateMsg): (e: Exec<State>)
    ensures e.store.Some?
    ensures e.store.value.owner == sender
    ensures e.store.value.greetingMessage == GreetingPrefix + msg.message
    ensures e.reply == Ok(Response([
              Attribute("method", "instantiate"),
              Attribute("owner", sender.value),
              Attribute("greeting_message", msg.message)]))
  {
    var state := State(Greeting(msg.message), sender);
    Exec(Ok(Response([
      Attribute("method", "instantiate"),
      Attribute("owner", sender.value),
      Attribute("greeting_message", msg.message)])), Some(state))
  }

  /** The handler's closure reads the owner from the stored state. */
  function Owner(s: State): Addr
  {
    s.owner
  }

  /** `update_greeting_message`: owner-gated; the new greeting depends only on the message. */
  function ExecUpdateGreeting(store: Option<State>, sender: Addr, message: string): (e: Exec<State>)
    ensures e.reply.Err? ==> e.store == store
    ensures store.None? ==> e.reply == Err(Std(NotFound))
    ensures store.Some? && sender != store.value.owner ==> e.reply == Err(Unauthorized)
    ensures store.Some? && sender == store.value.owner ==>
              && e.reply == Ok(ActionReply("update_greeting_message"))
              && e.store.Some?
              && e.store.value.owner == store.value.owner
              && e.store.value.greetingMessage == GreetingPrefix + message
  {
    OwnerGated(store, sender, Owner, (s: State) => s.(greetingMessage := Greeting(message)), "update_greeting_message")
  }

  /** `execute`: the only message is an update; a failed call leaves storage as it was and the owner never changes. */
  function Execute(store: Option<State>, sender: Addr, msg: ExecuteMsg): (e: Exec<State>)
    ensures e.reply.Err? ==> e.store == store
    ensures store.None? ==> e.reply == Err(Std(NotFound))
    ensures store.Some? ==> (e.reply.Ok? <==> sender == store.value.owner)
    ensures store.Some? && sender != store.value.owner ==> e.reply == Err(Unauthorized)
    ensures store.Some? ==> e.store.Some? && e.store.value.owner == store.value.owner
    ensures e.reply.Ok? ==> e.reply == Ok(ActionReply("update_greeting_message"))
    ensures e.reply.Ok? ==> e.store.Some? && e.store.value.greetingMessage == GreetingPrefix + msg.message
  {
    match msg
    case Update(message) => ExecUpdateGreeting(store, sender, message)
  }

  /** `query::get_message`: the stored greeting, verbatim. */
  function QueryGetMessage(store: Option<State>): (r: Result<GetMessageResponse, StdError>)
    ensures r.Err? <==> store.None?
    ensures r.Err? ==> r.error == NotFound
    ensures r.Ok? ==> r.value.message == store.value.greetingMessage
  {
    match store
    case None => Err(NotFound)
    case Some(s) => Ok(GetMessageResponse(s.greetingMessage))
  }

  /** `query`: the only query message asks for the greeting. */
  function Query(store: Option<State>, msg: QueryMsg): (r: Result<GetMessageResponse, StdError>)
    ensures r.Err? <==> store.None?
    ensures r.Err? ==> r.error == NotFound
    ensures r.Ok? ==> r.value.message == store.value.greetingMessage
  {
    match msg
    case GetMessage => QueryGetMessage(store)
  }

  // Properties of the contract across calls.

  /** After the owner's update, the query returns the prefix followed by exactly that message. */
  lemma UpdateThenQuery(store: Option<State>, message: string)
    requires store.Some?
    ensures Query(Execute(store, store.value.owner, Update(message)).store, GetMessage)
         == Ok(GetMessageResponse(GreetingPrefix + message))
  {
  }

  /** Two updates by the owner with the same message leave what one leaves. */
  lemma UpdateIdempotent(store: Option<State>, message: string)
    requires store.Some?
    ensures var once := Execute(store, store.value.owner, Update(message)).store;
            Execute(once, store.value.owner, Update(message)).store == once
  {
  }

  /** The greeting an update stores does not depend on the greeting it replaces. */
  lemma UpdateForgetsPrevious(s1: State, s2: State, message: string)
    requires s1.owner == s2.owner
    ensures Execute(Some(s1), s1.owner, Update(message)).store
         == Execute(Some(s2), s2.owner, Update(message)).store
  {
  }

  /** Instantiating and then updating with "Max" as the creator. */
  lemma UpdateMessageScenario()
    ensures var creator := Addr("creator");
            var e0 := Instantiate(creator, InstantiateMsg("Hello Wolrd! Cosmwasm"));
            var e1 := Execute(e0.store, creator, Update("Max"));
            Query(e1.store, GetMessage) == Ok(GetMessageResponse("Hello Wolrd! Max"))
  {
    var creator := Addr("creator");
    var e0 := Instantiate(creator, InstantiateMsg("Hello Wolrd! Cosmwasm"));
    assert e0.store.value.owner == creator;
    UpdateThenQuery(e0.store, "Max");
    assert GreetingPrefix + "Max" == "Hello Wolrd! Max";
  }

  /** Instantiating with a message that already carries the prefix stores the prefix twice. */
  lemma InstantiatePrefixesAgain()
    ensures var e := Instantiate(Addr("creator"), InstantiateMsg("Hello Wolrd! Cosmwasm"));
            && Query(e.store, GetMessage) == Ok(GetMessageResponse("Hello Wolrd! Hello Wolrd! Cosmwasm"))
            && Query(e.store, GetMessage) != Ok(GetMessageResponse("Hello Wolrd! Cosmwasm"))
  {
    var e := Instantiate(Addr("creator"), InstantiateMsg("Hello Wolrd! Cosmwasm"));
    assert GreetingPrefix + "Hello Wolrd! Cosmwasm" == "Hello Wolrd! Hello Wolrd! Cosmwasm";
  }
}
