/** The part of Fastify's reply object that the handlers touch: the status
    code, the headers and the payload sent. */
module Http {
  import opened Js

  /** What the client receives. */
  datatype Response<P> = Response(status: int, headers: map<string, string>, payload: Option<P>)

  /** A reply under construction. Fastify starts every reply at status 200
      with no headers; `type` sets the `content-type` header and header
      names are stored lower-cased. */
  class Reply<P> {
    var statusCode: int
    var headers: map<string, string>
    var payload: Option<P>

    /** The state Fastify hands a route handler. */
    ghost predicate Fresh()
      reads this
    {
      statusCode == 200 && headers == map[] && payload == None
    }

    function View(): Response<P>
      reads this
    {
      Response(statusCode, headers, payload)
    }

    constructor ()
      ensures Fresh()
    {
      statusCode := 200;
      headers := map[];
      payload := None;
    }

    /** `reply.code(c)`. */
    method Code(c: int)
      modifies this
      ensures View() == old(View()).(status := c)
    {
      statusCode := c;
    }

    /** `reply.type(t)`. */
    method Type(t: string)
      modifies this
      ensures View() == old(View()).(headers := old(headers)["content-type" := t])
    {
      headers := headers["content-type" := t];
    }

    /** `reply.header(name, value)`, for a name already in lower case. */
    method Header(name: string, value: string)
      modifies this
      ensures View() == old(View()).(headers := old(headers)[name := value])
    {
      headers := headers[name := value];
    }

    /** `reply.send(p)`. */
    method Send(p: P)
      modifies this
      ensures View() == old(View()).(payload := Some(p))
    {
      payload := Some(p);
    }
  }
}
