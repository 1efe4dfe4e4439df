# Image-transformation worker, modelled in Dafny

The worker is a single HTTP handler (`src/index.ts`). It reads an `image` query
parameter naming a remote picture. It checks that the picture's host is on an
allowlist and that its path has an image extension. It collects the
transformation options `fit`, `width`, `height` and `quality` from the query, and
picks an output `format` from the `Accept` header. It then forwards the request
to the transformation service at
`https://ecwrd.com/cdn-cgi/image/<options>/<image URL>`.

Apart from the final `fetch`, the handler is deterministic string logic. This
project models that logic as pure functions. A request goes in; what comes out
is either a response the worker builds itself (status and body) or the URL and
options it forwards.

Modules, one per part of the handler:

- `Wrappers` (wrappers.dfy): `Option` and `Result`.
- `Text` (text.dfy): the string predicates that stand in for the handler's fixed
  regular expressions. These are substring search, suffix test and ASCII case
  folding. It also has `Join`, its inverse `Split`, and `SplitFirst`.
- `Query` (query.dfy): the decoded query string as an ordered list of pairs.
  `Get` returns the first value for a name, as `URLSearchParams.get` does.
- `OptionBuilder` (options.dfy): the options object `options.cf.image`. It is an
  ordered list of (key, value) pairs, because insertion order fixes the wire format.
- `RequestGate` (gate.dfy): the host allowlist, the extension test, and the gate
  that runs the checks in the handler's order.
- `Rewriter` (rewrite.dfy): options serialisation, the forward URL, and the
  parsers that undo them (the round-trip partners).
- `Handler` (handler.dfy): `Handle`, which composes the parts, and the
  end-to-end properties.
- `Scenarios` (scenarios.dfy): requests worked through the model:
  - a sample request that is forwarded;
  - the example request from the handler's own comment (src/index.ts:21);
  - a query value that injects an option.

URL parsing (`new URL(...)`) is a parameter `parse: string -> Option<ParsedUrl>`.
`None` stands for a thrown `TypeError`. "No parsing happens" is stated as "the
result does not depend on `parse`".

The host patterns (`src/index.ts:24`) are unanchored, and `RegExp.prototype.test`
searches. A host that merely embeds an allowed name therefore passes; this may
be unintended. So a hostname is allowed when it *contains* `.ethancoward.dev`,
`ethancoward.com`, `ecwrd.com` or `i.scdn.co`, case-sensitively. The model keeps
that behaviour. `RequestGate.SpoofedHostsAllowed` shows `evil-ecwrd.com` and
`ecwrd.com.attacker.example` passing. `RequestGate.AllowedHostEmbedded` shows
that any hostname embedding an allowed one passes.

The example request in the handler's comment (src/index.ts:21) names an image on
`example.com`. That host is not on the code's own allowlist, so the handler
answers it with 403 `Domain not allowed` (`Scenarios.DocumentedRequestRefused`).
Its `format=webp` parameter is never read: the format comes from the `Accept`
header alone (`Scenarios.DocumentedFormatIgnored`).

The comment at src/index.ts:69 gives `width=256,height=256,fit=crop,format=webp,quality=75`
as an example options string. The code produces a different order: object keys
enumerate in insertion order, and the code inserts fit, width, height, quality,
then format. The model follows the code. `OptionBuilder.BuildOptions` fixes that
order, and `Rewriter.SerialiseSnoc` shows serialisation keeps it. For the same
parameters the code gives `fit=crop,width=256,height=256,quality=75,format=webp`.

Query values are copied into the options string unescaped. A value holding `,`
or `/` changes the string's structure. `Scenarios.InjectedOptionCarried` shows
`width=1,format=png` being read back by the transformation service as two
options, one of them a `format=png` that the `cf.image` options do not carry.
The round-trip lemmas therefore assume values free of `,` and `/` (`Handler.PlainValues`).

The extension test `/\.(jpe?g|png|gif|webp|svg)$/i` is modelled as "the
ASCII-lower-cased path ends in `.` plus one of `jpg`, `jpeg`, `png`, `gif`,
`webp`, `svg`". ASCII folding is exact here. Under the `i` flag without `u`, no
non-ASCII character folds to an ASCII letter.

## Model

| member | source | states |
|---|---|---|
| `Text.Contains` | src/index.ts:24 | a pattern text is found in a string iff it occurs at some index (an unanchored `test` is a search) |
| `Text.JoinSplit` | src/index.ts:70-72 | joining the pieces of a split with the same separator gives back the string |
| `Text.SplitJoin` | src/index.ts:70-72 | splitting a `join(",")` gives back the parts when no part contains the separator |
| `Query.Get` | src/index.ts:30-33 | `searchParams.get`: present iff `has`, and the value is that of the first pair with the name |
| `Query.GetSkip` | src/index.ts:30-33 | a pair with another name does not change `get` of a name |
| `OptionBuilder.Negotiate` | src/index.ts:36-41 | format is `avif` iff `Accept` contains `image/avif`; `webp` iff it contains `image/webp` but not `image/avif`; absent iff it contains neither or the header is missing (avif wins) |
| `OptionBuilder.BuildOptions` | src/index.ts:27-41 | each of `fit`, `width`, `height`, `quality` is present iff the query has it, with the query value unchanged; `format` is the negotiated format; only these keys, each once, in the order fit, width, height, quality, format |
| `OptionBuilder.RankedUnique` | src/index.ts:27-41 | two option lists whose keys are known, unique and in builder order are equal when they agree on every key, so order and content are fixed by the lookups |
| `OptionBuilder.BuildOptionsDetermined` | src/index.ts:27-41 | any ranked option list with the query's copies and the negotiated format is exactly the built one |
| `OptionBuilder.OnlyCopiedKeysMatter` | src/index.ts:30-33 | queries that agree on `fit`, `width`, `height`, `quality` give the same options |
| `OptionBuilder.FormatParamIgnored` | src/index.ts:30-41 | a `format` query parameter, anywhere in the query, does not change the options |
| `OptionBuilder.BuiltValue` | src/index.ts:30-41 | every built pair is a copied key with its query value, or `format` with `avif` or `webp` |
| `Query.Has` | src/index.ts:30-33 | `searchParams.has`: some pair carries the name; `Query.Get` is present exactly when it holds |
| `OptionBuilder.CopyParam` | src/index.ts:30-33 | one conditional copy; `OptionBuilder.CopyParamLookup` states that it adds the key with the query's value exactly when the query has it, and changes no other key |
| `Text.Join` | src/index.ts:72 | `Array.prototype.join`; its partner `Text.Split` is proved inverse in both directions by `Text.JoinSplit` and `Text.SplitJoin` |
| `RequestGate.HostAllowed` | src/index.ts:56 | the allowlist test over the patterns of line 24; `RequestGate.SomeMatches` states it holds iff some pattern text occurs in the host, and `RequestGate.AllowedHostEmbedded` that embedding keeps it |
| `RequestGate.ExtAllowed` | src/index.ts:61 | the extension test; `RequestGate.ExtAllowedByLastDot` states it holds iff the text after the last `.`, lower-cased, is an allowed extension |
| `RequestGate.SomeMatches` | src/index.ts:56 | `patterns.some(p => p.test(host))` holds iff some pattern text occurs in the host |
| `RequestGate.Gate` | src/index.ts:46-67 | the request passes iff `image` is present and non-empty, parses, has an allowed host and an allowed extension; then the raw `image` value goes on |
| `RequestGate.AllowedHostEmbedded` | src/index.ts:24 | any hostname that embeds an allowed hostname is allowed |
| `RequestGate.SpoofedHostsAllowed` | src/index.ts:24 | `evil-ecwrd.com` and `ecwrd.com.attacker.example` pass the allowlist |
| `RequestGate.UpperCaseHostRefused` | src/index.ts:24 | matching is case-sensitive: `ECWRD.COM` is refused |
| `RequestGate.BareDomainRefused` | src/index.ts:24 | the first pattern needs a label before `.ethancoward.dev`: the bare domain `ethancoward.dev` is refused |
| `RequestGate.ExtAllowedByLastDot` | src/index.ts:61 | the extension test holds iff the path has a `.` and the text after its last `.`, lower-cased, is an allowed extension |
| `RequestGate.ExtAllowedIgnoresCase` | src/index.ts:61 | the extension test gives the same answer on the lower-cased path |
| `Rewriter.Serialise` | src/index.ts:70-72 | the options string is empty exactly when no option is set; `Rewriter.SerialiseSnoc` gives its shape and `Rewriter.SerialiseRoundTrip` its inverse |
| `Rewriter.Rewrite` | src/index.ts:75 | the forward URL; `Rewriter.RewriteRoundTrip` states it splits back into the options string and the raw image URL |
| `Rewriter.SerialiseSnoc` | src/index.ts:70-72 | no options give the empty string, one gives `key=value`, and each further option appends `,key=value` in insertion order |
| `Rewriter.SerialiseRoundTrip` | src/index.ts:70-72 | an options string parses back into exactly its options when keys hold no `,` or `=` and values no `,` |
| `Rewriter.RewriteRoundTrip` | src/index.ts:75 | the forward URL splits back into the options string and the raw image URL when the options string holds no `/` |
| `Handler.Handle` | src/index.ts:46-83 | the handler's decision; `Handler.ForwardsOnlyWhenAllowed` states when it forwards and to what, and the four rejection lemmas below give each local response |
| `Handler.MissingImageRejected` | src/index.ts:46-47 | missing or empty `image` gives 400 `Missing "image" value`, whatever the URL parser does |
| `Handler.InvalidUrlRejected` | src/index.ts:49-66 | a non-empty `image` that does not parse gives 400 `Invalid URL` |
| `Handler.ForeignHostForbidden` | src/index.ts:55-58 | a parsed host outside the allowlist gives 403 `Domain not allowed`, whatever the path |
| `Handler.DisallowedExtensionRejected` | src/index.ts:60-63 | an allowed host with a disallowed extension gives 400 `Disallowed file extension` |
| `Handler.ForwardsOnlyWhenAllowed` | src/index.ts:46-83 | the handler forwards iff every check passes, to `https://ecwrd.com/cdn-cgi/image/` + options string + `/` + the raw `image` value, with the built options alongside |
| `Handler.LocalResponses` | src/index.ts:46-67 | the worker's own responses are exactly its four (status, body) pairs, and 403 goes with `Domain not allowed` alone |
| `Handler.PlainOptions` | src/index.ts:70-72 | options built from query values without `,` or `/` serialise unambiguously and hold no `/` |
| `Handler.ForwardedUrlParsesBack` | src/index.ts:70-75 | for such values the forwarded URL splits back into the options string and the raw image URL, and that string parses back into the forwarded options |
| `Scenarios.SampleOptionsBuilt` | src/index.ts:30-41 | the sample query `width=256&height=256&fit=crop` with `Accept: image/webp` builds `fit, width, height, format` in that order |
| `Scenarios.SampleOptionsString` | src/index.ts:69-72 | the sample options serialise to `fit=crop,width=256,height=256,format=webp` |
| `Scenarios.SampleRequestForwarded` | src/index.ts:30-75 | the sample request for `https://i.scdn.co/art.jpg` is forwarded to `https://ecwrd.com/cdn-cgi/image/fit=crop,width=256,height=256,format=webp/https://i.scdn.co/art.jpg` |
| `Scenarios.DocumentedRequestRefused` | src/index.ts:21-58 | the example request of the handler's comment, for an image on `example.com`, gets 403 `Domain not allowed` whatever the `Accept` header |
| `Scenarios.DocumentedFormatIgnored` | src/index.ts:21-41 | that request's `format=webp` parameter does not change the options; with no `Accept` header they hold no format |
| `Scenarios.InjectedOptionCarried` | src/index.ts:30-72 | `width=1,format=png` builds options with `width` alone and no format, yet their string parses back as `width=1` and `format=png` |

## Left out

- The outbound `fetch`, the `Request` construction and header pass-through (src/index.ts:78-83): this is network I/O and the upstream response is returned opaquely. The model stops at `Handler.Forward(url, image)`, the URL and the `cf.image` options the fetch is given.
- WHATWG URL parsing via `new URL(...)` (src/index.ts:19, 51), with its hostname lowercasing and percent-decoding. `parse` is a parameter. The incoming query is taken as already-decoded (name, value) pairs.
- A general regular-expression engine: the four patterns at src/index.ts:24 and those at 37, 39 and 61 are replaced by the equivalent substring, suffix and ASCII-folding predicates.
- `Headers.get` on the `Accept` header: the model takes the header's (combined) value, or none when absent. `test(null)` searches the text `"null"`, which contains neither token, so an absent header gives no format, as modelled.
- `console.error` logging (src/index.ts:65).
- The unused constants `base` and `statusCode` (src/index.ts:16-17).
- The Workers `env` and `ctx` parameters and the `ExportedHandler` typing.
- Idempotence of option building: every member is a pure function, so repeating a call gives the same result by construction; no lemma is needed.
- In-place mutation of `options.cf.image`: the four conditional assignments and the format assignment are modelled as successive appends in `OptionBuilder.BuildOptions`, which is how an object's string keys enumerate.
