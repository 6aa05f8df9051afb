/** The parts of the Next.js request and response the resolvers touch: the
    request's parsed cookies and the response's `setHeader`. */
module Http {

  /** An incoming request, reduced to its cookies (name to value). */
  datatype Request = Request(cookies: map<string, string>)

  /** An outgoing response. `setHeader` replaces any earlier value of the
      same header; the ghost field `setHeaderCalls` records every call. */
  class Response {
    var headers: map<string, string>
    ghost var setHeaderCalls: seq<(string, string)>

    constructor ()
      ensures headers == map[] && setHeaderCalls == []
    {
      headers := map[];
      setHeaderCalls := [];
    }

    method SetHeader(name: string, value: string)
      modifies this
      ensures headers == old(headers)[name := value]
      ensures setHeaderCalls == old(setHeaderCalls) + [(name, value)]
    {
      headers := headers[name := value];
      setHeaderCalls := setHeaderCalls + [(name, value)];
    }
  }
}
