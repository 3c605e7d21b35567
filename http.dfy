/**
  What the identifier actions exchange with the outside world: the requests
  they build, the responses and transfer exceptions Guzzle hands back, the
  failures that can leave an action, the entries they write to the log, and
  the two objects they work on — the HTTP client and the content entity.
*/
module Http {
  import opened Values
  import opened Php

  datatype Verb = POST | PUT | DELETE

  datatype HeaderValue = Text(s: string) | Number(n: int)

  type Headers = seq<(string, HeaderValue)>

  /** A request body: the JSON object the PURL actions encode (its members in
      order), or the raw bytes of an EZID metadata document. */
  datatype Body = NoBody | JsonFields(fields: Assoc) | Bytes(data: seq<bv8>)

  datatype Request = Request(verb: Verb, uri: string, headers: Headers, body: Body)

  /** A response, described by its body as json_decode($body, TRUE) sees it
      (None: empty, or not a JSON object). The actions read nothing else of a
      response: a Guzzle client raises a RequestException for an error status
      before any action sees it. */
  datatype Response = Response(json: Option<JsonObject>)

  /** Guzzle's RequestException: a message, the request, the response if
      there was one, and the exception it wraps. */
  datatype RequestException = RequestException(
    message: string,
    request: Request,
    response: Option<Response>,
    previous: Option<RequestException>)

  /** What sending a request yields: a response, a RequestException, or
      another transfer exception (one that is not a RequestException). */
  datatype Outcome =
    | Received(response: Response)
    | RequestFailed(error: RequestException)
    | TransferFailed(message: string)

  /** The exceptions and errors that can end an action early. All but
      TypeError are PHP Exceptions; TypeError is a PHP Error. */
  datatype Failure =
    | RequestError(cause: RequestException)   // RequestException, re-thrown
    | TransferError(text: string)             // other Guzzle transfer exception
    | EntityUrlError(text: string)            // UndefinedLinkTemplateException from toUrl()
    | InvalidArgument(text: string)           // InvalidArgumentException
    | MintError(text: string)                 // a plain \Exception
    | TypeError(text: string)                 // a PHP Error, not an Exception
  {
    predicate IsException() { !TypeError? }

    function Message(): string
    {
      match this
      case RequestError(e) => e.message
      case TransferError(t) => t
      case EntityUrlError(t) => t
      case InvalidArgument(t) => t
      case MintError(t) => t
      case TypeError(t) => t
    }
  }

  const EntityUrlMessage := "No link template for the entity's canonical URL"
  const PathTypeMessage := "Cannot assign null to property $purlPath of type string"

  datatype Level = Info | Warning | Error

  /** Why the update action gave up, as its catch blocks word it. */
  datatype Cause = EntityUrl | FieldNotFound | OtherError

  /** The events the actions log (the lines marked DEBUG are not modelled). */
  datatype Event =
    | PurlLookedUp(lookedUpPath: string, lookedUpId: int)
    | PurlMinted(mintedPath: Json)
    | PurlUpdated(updatedPath: Json)
    | PurlDeleted(deletedPath: Json)
    | PurlDeleteFailed(failedPath: Json)
    | DeleteSkipped(skippedPath: string)
    | UpdateFailed(cause: Cause, message: string)

  datatype LogEntry = LogEntry(level: Level, event: Event)

  /** How a loop over the stored identifiers ended. */
  datatype Status = Done | Stopped(failure: Failure)

  /** What a run of an action did: the requests it sent, in order, the log
      entries it wrote, in order, and how it ended. */
  datatype Run = Run(sent: seq<Request>, log: seq<LogEntry>, status: Status)

  /** The collaborators the actions consult but that are not modelled:
      parse_url($uri, PHP_URL_PATH) (None: the URI has no path) and the
      registry lookup getPurlId($path) (a positive id when a PURL exists). */
  datatype Oracles = Oracles(pathOf: string -> Option<string>, purlIdOf: string -> int)

  /** The HTTP client. It records every request sent; `respond` is the
      remote service: its answer to the n-th request sent through the client. */
  class Client {
    var sent: seq<Request>
    const respond: (nat, Request) -> Outcome

    constructor (respond: (nat, Request) -> Outcome)
      ensures sent == [] && this.respond == respond
    {
      sent := [];
      this.respond := respond;
    }

    method Send(r: Request) returns (o: Outcome)
      modifies this
      ensures sent == old(sent) + [r]
      ensures o == respond(|old(sent)|, r)
    {
      o := respond(|sent|, r);
      sent := sent + [r];
    }
  }

  /** A content entity: whether it is fieldable, the link URIs stored in each
      of its fields, and the path of its canonical external URL (None: the
      entity type has no canonical link template, so toUrl() throws). */
  class Entity {
    const fieldable: bool
    var fields: map<string, seq<string>>
    const urlPath: Option<string>

    constructor (fieldable: bool, fields: map<string, seq<string>>, urlPath: Option<string>)
      ensures this.fieldable == fieldable && this.fields == fields && this.urlPath == urlPath
    {
      this.fieldable := fieldable;
      this.fields := fields;
      this.urlPath := urlPath;
    }
  }
}
