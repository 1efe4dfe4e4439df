/**
 * The request handler (src/index.ts:14-85) as one decision: from the query
 * string, the `Accept` header and the URL parser, either a response the worker
 * produces itself or the URL and options it forwards to the transformation
 * service.
 */
module Handler {
  import opened Wrappers
  import opened Text
  import opened Query
  import opened OptionBuilder
  import opened RequestGate
  import opened Rewriter

  /** What the handler reads from the incoming request. */
  datatype Request = Request(query: Params, accept: Option<string>)

  /**
   * A response the worker builds itself, or the forward: `fetch` of the
   * transformed URL with `{ cf: { image } }` as its options.
   */
  datatype Outcome =
    | Local(status: int, body: string)
    | Forward(url: string, image: ImageOptions)

  /** The handler, with `new URL(...)` on the `image` value given as `parse`. */
  function Handle(req: Request, parse: string -> Option<ParsedUrl>): Outcome {
    var options := BuildOptions(req.query, req.accept);
    match Gate(Get(req.query, "image"), parse)
    case Failure(reason) => Local(Status(reason), Body(reason))
    case Success(imageUrl) => Forward(Rewrite(Serialise(options), imageUrl), options)
  }

  /** A missing or empty `image` is refused first, without parsing anything. */
  lemma MissingImageRejected(req: Request, parse: string -> Option<ParsedUrl>, otherParse: string -> Option<ParsedUrl>)
    requires Get(req.query, "image") in {None, Some("")}
    ensures Handle(req, parse) == Local(400, "Missing \"image\" value")
    ensures Handle(req, otherParse) == Handle(req, parse)
  {
  }

  /** An `image` value that does not parse as a URL is refused. */
  lemma InvalidUrlRejected(req: Request, parse: string -> Option<ParsedUrl>)
    requires Get(req.query, "image").Some? && Get(req.query, "image").value != ""
    requires parse(Get(req.query, "image").value).None?
    ensures Handle(req, parse) == Local(400, "Invalid URL")
  {
  }

  /** A host outside the allowlist is forbidden, whatever its path. */
  lemma ForeignHostForbidden(req: Request, parse: string -> Option<ParsedUrl>)
    requires Get(req.query, "image").Some? && Get(req.query, "image").value != ""
    requires parse(Get(req.query, "image").value).Some?
    requires !HostAllowed(parse(Get(req.query, "image").value).value.hostname)
    ensures Handle(req, parse) == Local(403, "Domain not allowed")
  {
  }

  /** An allowed host with a path of another extension is refused. */
  lemma DisallowedExtensionRejected(req: Request, parse: string -> Option<ParsedUrl>)
    requires Get(req.query, "image").Some? && Get(req.query, "image").value != ""
    requires parse(Get(req.query, "image").value).Some?
    requires HostAllowed(parse(Get(req.query, "image").value).value.hostname)
    requires !ExtAllowed(parse(Get(req.query, "image").value).value.pathname)
    ensures Handle(req, parse) == Local(400, "Disallowed file extension")
  {
  }

  /**
   * The handler forwards exactly when every check passes, and then to the
   * prefix, the serialised options, `/` and the raw `image` value, with the
   * same options alongside.
   */
  lemma ForwardsOnlyWhenAllowed(req: Request, parse: string -> Option<ParsedUrl>)
    ensures Handle(req, parse).Forward? <==>
              && Get(req.query, "image").Some? && Get(req.query, "image").value != ""
              && parse(Get(req.query, "image").value).Some?
              && HostAllowed(parse(Get(req.query, "image").value).value.hostname)
              && ExtAllowed(parse(Get(req.query, "image").value).value.pathname)
    ensures Handle(req, parse).Forward? ==>
              && Handle(req, parse).url ==
                   "https://ecwrd.com/cdn-cgi/image/" + Serialise(BuildOptions(req.query, req.accept)) +
                   "/" + Get(req.query, "image").value
              && Handle(req, parse).image == BuildOptions(req.query, req.accept)
  {
  }

  /** The worker's own responses are the four of its table, and only a host refusal is a 403. */
  lemma LocalResponses(req: Request, parse: string -> Option<ParsedUrl>)
    ensures Handle(req, parse).Local? ==>
              (Handle(req, parse).status, Handle(req, parse).body) in
                {(400, "Missing \"image\" value"), (400, "Invalid URL"),
                 (403, "Domain not allowed"), (400, "Disallowed file extension")}
    ensures Handle(req, parse).Local? ==>
              (Handle(req, parse).status == 403 <==> Handle(req, parse).body == "Domain not allowed")
  {
  }

  /** The copied query values hold neither `,` nor `/`. */
  predicate PlainValues(q: Params) {
    forall k :: 0 <= k < |CopiedKeys| && Get(q, CopiedKeys[k]).Some? ==>
                  ',' !in Get(q, CopiedKeys[k]).value && '/' !in Get(q, CopiedKeys[k]).value
  }

  lemma KeyChars(key: string)
    requires key in KeyOrder
    ensures ',' !in key && '=' !in key && '/' !in key
  {
  }

  lemma PlainPairOf(q: Params, pair: (string, string))
    requires PlainValues(q)
    requires || (pair.0 in CopiedKeys && Get(q, pair.0) == Some(pair.1))
             || (pair.0 == "format" && pair.1 in {"avif", "webp"})
    ensures ',' !in pair.0 && '=' !in pair.0 && ',' !in pair.1 && '/' !in Render(pair)
  {
    KeyChars(pair.0);
    assert ',' !in pair.1 && '/' !in pair.1 by {
      if pair.0 in CopiedKeys {
        var n :| 0 <= n < |CopiedKeys| && CopiedKeys[n] == pair.0;
      }
    }
    var rendered := pair.0 + "=" + pair.1;
    assert forall c :: c in rendered ==> c in pair.0 || c == '=' || c in pair.1;
  }

  /** Built from plain values, the options can be serialised unambiguously and hold no `/`. */
  lemma PlainOptions(q: Params, accept: Option<string>)
    requires PlainValues(q)
    ensures Serialisable(BuildOptions(q, accept))
    ensures '/' !in Serialise(BuildOptions(q, accept))
  {
    var opts := BuildOptions(q, accept);
    var parts := RenderAll(opts);
    forall i | 0 <= i < |opts|
      ensures ',' !in opts[i].0 && '=' !in opts[i].0 && ',' !in opts[i].1 && '/' !in parts[i]
    {
      BuiltValue(q, accept, i);
      PlainPairOf(q, opts[i]);
    }
    JoinExcludes(parts, ',', '/');
  }

  /**
   * When the copied values hold neither `,` nor `/`, a forwarded URL splits back
   * into its options string and the raw image URL, and the options string
   * parses back into the options that travel with the request.
   */
  lemma ForwardedUrlParsesBack(req: Request, parse: string -> Option<ParsedUrl>)
    requires Handle(req, parse).Forward? && PlainValues(req.query)
    ensures var out := Handle(req, parse);
            && ParseForward(out.url) == Some((Serialise(out.image), Get(req.query, "image").value))
            && ParseOptions(Serialise(out.image)) == Some(out.image)
  {
    var opts := BuildOptions(req.query, req.accept);
    ForwardsOnlyWhenAllowed(req, parse);
    PlainOptions(req.query, req.accept);
    SerialiseRoundTrip(opts);
    RewriteRoundTrip(Serialise(opts), Get(req.query, "image").value);
  }
}
