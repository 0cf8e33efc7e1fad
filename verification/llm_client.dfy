/** The model-name resolution and the client registry of the LLM client
    module. The environment is a parameter (a map from variable names to
    values); a client is seen only through the model it was made for. */
module LlmClient {
  import opened Wrappers

  /** The process environment as `os.getenv` sees it. */
  type Env = map<string, string>

  const DefaultModel: string := "gpt-4-turbo-preview"
  const ModelVariable: string := "OPENAI_MODEL"

  /** `os.getenv(name)`: the value, or None when the variable is unset. */
  function GetEnv(env: Env, name: string): Option<string>
  {
    if name in env then Some(env[name]) else None
  }

  /** Python truthiness of `os.getenv(...)`: set and non-empty. */
  predicate Truthy(v: Option<string>)
  {
    v.Some? && v.value != ""
  }

  function LowerChar(c: char): char
  {
    if 'A' <= c <= 'Z' then (c as int - 'A' as int + 'a' as int) as char else c
  }

  /** `str.lower()` on ASCII letters; every other character is kept. */
  function Lower(s: string): (r: string)
    ensures |r| == |s|
    ensures forall i :: 0 <= i < |s| ==> r[i] == LowerChar(s[i])
  {
    seq(|s|, i requires 0 <= i < |s| => LowerChar(s[i]))
  }

  /** The names `get_node_model` tries, in order. */
  function NodeModelKeys(key: string): seq<string>
  {
    [key, Lower(key), ModelVariable]
  }

  /** The first name of `keys` set to a non-empty value gives that value;
      with none, the default. This is Python's `a or b or c or d`. */
  function FirstSet(env: Env, keys: seq<string>, default: string): string
  {
    if keys == [] then default
    else if Truthy(GetEnv(env, keys[0])) then env[keys[0]]
    else FirstSet(env, keys[1..], default)
  }

  /** `get_node_model`: the node's own variable, then its lower-case
      spelling, then OPENAI_MODEL, then the built-in default. */
  function NodeModel(env: Env, key: string): string
  {
    FirstSet(env, NodeModelKeys(key), DefaultModel)
  }

  /** The value of the first candidate that is set and non-empty wins: every
      candidate before it is unset or empty; when no candidate is set and
      non-empty the default wins. */
  lemma {:induction false} FirstSetFacts(env: Env, keys: seq<string>, default: string)
    ensures var r := FirstSet(env, keys, default);
      || (exists i :: 0 <= i < |keys| && Truthy(GetEnv(env, keys[i])) && r == env[keys[i]]
            && forall j :: 0 <= j < i ==> !Truthy(GetEnv(env, keys[j])))
      || (r == default && forall j :: 0 <= j < |keys| ==> !Truthy(GetEnv(env, keys[j])))
    ensures FirstSet(env, keys, default) == "" ==> default == ""
  {
    if keys != [] && !Truthy(GetEnv(env, keys[0])) {
      FirstSetFacts(env, keys[1..], default);
      var r := FirstSet(env, keys, default);
      if exists i :: 0 <= i < |keys[1..]| && Truthy(GetEnv(env, keys[1..][i])) && r == env[keys[1..][i]]
           && forall j :: 0 <= j < i ==> !Truthy(GetEnv(env, keys[1..][j])) {
        var i :| 0 <= i < |keys[1..]| && Truthy(GetEnv(env, keys[1..][i])) && r == env[keys[1..][i]]
           && forall j :: 0 <= j < i ==> !Truthy(GetEnv(env, keys[1..][j]));
        assert keys[i + 1] == keys[1..][i];
        assert forall j :: 1 <= j < i + 1 ==> keys[j] == keys[1..][j - 1];
      } else {
        assert forall j :: 1 <= j < |keys| ==> keys[j] == keys[1..][j - 1];
      }
    } else if keys != [] {
      assert env[keys[0]] != "";
    }
  }

  /** `get_node_model` never returns an empty name, and it returns the
      node's own variable whenever that is set and non-empty; otherwise
      the result is the value of one of the fallbacks or the default. */
  lemma NodeModelFacts(env: Env, key: string)
    ensures NodeModel(env, key) != ""
    ensures Truthy(GetEnv(env, key)) ==> NodeModel(env, key) == env[key]
    ensures !Truthy(GetEnv(env, key)) && Truthy(GetEnv(env, Lower(key))) ==> NodeModel(env, key) == env[Lower(key)]
    ensures !Truthy(GetEnv(env, key)) && !Truthy(GetEnv(env, Lower(key))) ==>
      NodeModel(env, key) == (if Truthy(GetEnv(env, ModelVariable)) then env[ModelVariable] else DefaultModel)
  {
    var keys := NodeModelKeys(key);
    var last := [ModelVariable];
    var third := FirstSet(env, last, DefaultModel);
    assert last[0] == ModelVariable && last[1..] == [];
    assert FirstSet(env, last[1..], DefaultModel) == DefaultModel;
    assert third == if Truthy(GetEnv(env, ModelVariable)) then env[ModelVariable] else DefaultModel;
    assert keys[1..] == [Lower(key), ModelVariable];
    assert keys[1..][1..] == last;
    var second := FirstSet(env, keys[1..], DefaultModel);
    assert second == if Truthy(GetEnv(env, Lower(key))) then env[Lower(key)] else third;
  }

  /** The model `get_llm_client` caches under: the given name when it is
      non-empty, otherwise OPENAI_MODEL, or the default when that is unset.
      Unlike `get_node_model`, an OPENAI_MODEL set to "" is taken as is. */
  function ResolvedModel(model: Option<string>, env: Env): string
  {
    if Truthy(model) then model.value
    else if ModelVariable in env then env[ModelVariable]
    else DefaultModel
  }

  /** The resolved name is empty only when no name is given and
      OPENAI_MODEL is set to the empty string. */
  lemma ResolvedModelEmpty(model: Option<string>, env: Env)
    ensures ResolvedModel(model, env) == "" <==> !Truthy(model) && GetEnv(env, ModelVariable) == Some("")
  {
  }

  /** The key `set_llm_client` stores under: the given name when it is
      non-empty, otherwise the client's own model. */
  function StoreKey(model: Option<string>, clientModel: string): string
  {
    if Truthy(model) then model.value else clientModel
  }

  /** A client stored under a non-empty key is what a later get with that
      name resolves to; under the empty key no get finds it unless
      OPENAI_MODEL is set to "". */
  lemma StoredClientFound(model: Option<string>, clientModel: string, env: Env)
    ensures var k := StoreKey(model, clientModel);
      k != "" ==> ResolvedModel(Some(k), env) == k
    ensures var k := StoreKey(model, clientModel);
      (k == "" && ResolvedModel(Some(k), env) == k) ==> GetEnv(env, ModelVariable) == Some("")
  {
    ResolvedModelEmpty(Some(StoreKey(model, clientModel)), env);
  }

  /** An LLM client; only the model it talks to matters here. */
  class Client {
    const model: string

    constructor(model: string)
      ensures this.model == model
    {
      this.model := model;
    }
  }

  /** The module-level `_llm_clients` dictionary. */
  class Registry {
    var clients: map<string, Client>

    /** The dictionary starts empty. */
    constructor()
      ensures clients == map[]
    {
      clients := map[];
    }

    /** `get_llm_client`: on a miss a new client for the resolved model is
        stored under it, and nothing else changes; on a hit the dictionary is
        unchanged and the stored client is returned, so repeated calls with
        the same resolved model return the same instance. */
    method GetLlmClient(model: Option<string>, env: Env) returns (c: Client)
      modifies this
      ensures var k := ResolvedModel(model, env);
        && k in clients && c == clients[k]
        && (k in old(clients) ==> clients == old(clients) && c == old(clients)[k])
        && (k !in old(clients) ==> clients == old(clients)[k := c] && fresh(c) && c.model == k)
    {
      var k := ResolvedModel(model, env);
      if k !in clients {
        var made := new Client(k);
        clients := clients[k := made];
      }
      c := clients[k];
    }

    /** `set_llm_client`: the client is stored under the given name or its
        own model, replacing what was there; other names keep their clients. */
    method SetLlmClient(client: Client, model: Option<string>)
      modifies this
      ensures clients == old(clients)[StoreKey(model, client.model) := client]
    {
      var k := StoreKey(model, client.model);
      clients := clients[k := client];
    }
  }
}
