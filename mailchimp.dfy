/**
 * The MailChimp API as the field sees it: JSON values, the calls it issues,
 * and a client object that remembers whether its last call succeeded.
 *
 * The HTTP transport is replaced by a `server` oracle that answers each call
 * with a decoded response body and a success flag; the client records every
 * call it makes, in order, so that which calls happen can be stated.
 */
module MailChimp {

  /** A decoded JSON value (PHP's `json_decode(..., true)` / `json_encode` view of arrays). */
  datatype Json =
    | JNull
    | JBool(b: bool)
    | JInt(i: int)
    | JString(s: string)
    | JList(items: seq<Json>)
    | JObject(fields: map<string, Json>)

  /** A request payload or a decoded response body: a JSON object. */
  type Payload = map<string, Json>

  /** One request to the API, with the path relative to the API root. */
  datatype Call =
    | Get(path: string)
    | Post(path: string, payload: Payload)
    | Patch(path: string, payload: Payload)

  /**
   * The answer to one call: the decoded body (empty when the response had
   * none) and whether the HTTP status was a success.
   */
  datatype Reply = Reply(body: Payload, success: bool)

  /** A client for one API key; `server` stands for the network and the remote service. */
  class Client {
    const server: Call -> Reply
    /** Every call made through this client, oldest first. */
    var log: seq<Call>
    /** Whether the last call succeeded (`success()`); false before any call. */
    var lastSuccess: bool

    constructor (server: Call -> Reply)
      ensures this.server == server
      ensures log == [] && !lastSuccess
    {
      this.server := server;
      log := [];
      lastSuccess := false;
    }

    /** Sends `call`, records it and remembers its success. */
    method Send(call: Call) returns (body: Payload)
      modifies this
      ensures log == old(log) + [call]
      ensures body == server(call).body
      ensures lastSuccess == server(call).success
    {
      var reply := server(call);
      log := log + [call];
      lastSuccess := reply.success;
      body := reply.body;
    }

    method Get(path: string) returns (body: Payload)
      modifies this
      ensures log == old(log) + [Call.Get(path)]
      ensures body == server(Call.Get(path)).body
      ensures lastSuccess == server(Call.Get(path)).success
    {
      body := Send(Call.Get(path));
    }

    method Post(path: string, payload: Payload) returns (body: Payload)
      modifies this
      ensures log == old(log) + [Call.Post(path, payload)]
      ensures body == server(Call.Post(path, payload)).body
      ensures lastSuccess == server(Call.Post(path, payload)).success
    {
      body := Send(Call.Post(path, payload));
    }

    method Patch(path: string, payload: Payload) returns (body: Payload)
      modifies this
      ensures log == old(log) + [Call.Patch(path, payload)]
      ensures body == server(Call.Patch(path, payload)).body
      ensures lastSuccess == server(Call.Patch(path, payload)).success
    {
      body := Send(Call.Patch(path, payload));
    }

    /** Was the last request successful? */
    function Success(): bool
      reads this
    {
      lastSuccess
    }
  }
}
