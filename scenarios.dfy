/**
 * Requests worked through the model. The first is a sample request that the
 * handler forwards: `image=https://i.scdn.co/art.jpg`, `width=256`,
 * `height=256`, `fit=crop` and `Accept: image/webp`. The second is the request
 * the handler's own comment gives as an example (src/index.ts:21), which the
 * allowlist refuses. The third shows a copied value injecting an option into
 * the forwarded URL. The literal values reach each lemma through equalities in
 * its requires clauses.
 */
module Scenarios {
  import opened Wrappers
  import opened Text
  import opened Query
  import opened OptionBuilder
  import opened RequestGate
  import opened Rewriter
  import opened Handler

  /** `Accept: image/webp` negotiates `webp`. */
  lemma WebpOnlyAccept(accept: Option<string>)
    requires accept == Some("image/webp")
    ensures Negotiate(accept) == Some("webp")
  {
    assert 'v' !in accept.value;
    MissingCharNotContained(accept.value, "image/avif", 'v');
    assert OccursAt(accept.value, "image/webp", 0);
  }

  /** What `searchParams.get` returns for the four copied keys of the sample query. */
  lemma SampleQueryLookups(q: Params)
    requires q == [("image", "https://i.scdn.co/art.jpg"), ("width", "256"), ("height", "256"), ("fit", "crop")]
    ensures Get(q, "fit") == Some("crop") && Get(q, "width") == Some("256")
    ensures Get(q, "height") == Some("256") && Get(q, "quality") == None
  {
    assert Get(q, "fit") == Get(q[1..], "fit") == Get(q[2..], "fit") == Get(q[3..], "fit") == Some("crop");
    assert Get(q, "width") == Get(q[1..], "width") == Some("256");
    assert Get(q, "height") == Get(q[1..], "height") == Get(q[2..], "height") == Some("256");
    assert Get(q, "quality") == Get(q[1..], "quality") == Get(q[2..], "quality") == Get(q[3..], "quality")
        == Get(q[4..], "quality") == None;
  }

  lemma SampleOptionsLookups(o: ImageOptions)
    requires o == [("fit", "crop"), ("width", "256"), ("height", "256"), ("format", "webp")]
    ensures Get(o, "fit") == Some("crop") && Get(o, "width") == Some("256")
    ensures Get(o, "height") == Some("256") && Get(o, "quality") == None
    ensures Get(o, "format") == Some("webp")
  {
    assert Get(o, "width") == Get(o[1..], "width") == Some("256");
    assert Get(o, "height") == Get(o[1..], "height") == Get(o[2..], "height") == Some("256");
    assert Get(o, "quality") == Get(o[1..], "quality") == Get(o[2..], "quality")
        == Get(o[3..], "quality") == Get(o[4..], "quality") == None;
    assert Get(o, "format") == Get(o[1..], "format") == Get(o[2..], "format")
        == Get(o[3..], "format") == Some("webp");
  }

  lemma SampleOptionsRanked(o: ImageOptions)
    requires o == [("fit", "crop"), ("width", "256"), ("height", "256"), ("format", "webp")]
    ensures Ranked(o)
  {
    assert Rank(o[0].0) == 0 && Rank(o[1].0) == 1;
    assert Rank(o[2].0) == 2 && Rank(o[3].0) == 4;
  }

  /** The builder turns the sample query into `fit`, `width`, `height`, `format`, in that order. */
  lemma SampleOptionsBuilt(q: Params, accept: Option<string>, o: ImageOptions)
    requires Negotiate(accept) == Some("webp")
    requires Get(q, "fit") == Some("crop") && Get(q, "width") == Some("256")
    requires Get(q, "height") == Some("256") && Get(q, "quality") == None
    requires Get(o, "fit") == Some("crop") && Get(o, "width") == Some("256")
    requires Get(o, "height") == Some("256") && Get(o, "quality") == None
    requires Get(o, "format") == Some("webp") && Ranked(o)
    ensures BuildOptions(q, accept) == o
  {
    assert forall k :: 0 <= k < |CopiedKeys| ==> Get(o, CopiedKeys[k]) == Get(q, CopiedKeys[k]) by {
      forall k | 0 <= k < |CopiedKeys| ensures Get(o, CopiedKeys[k]) == Get(q, CopiedKeys[k]) {
        assert k == 0 || k == 1 || k == 2 || k == 3;
      }
    }
    BuildOptionsDetermined(q, accept, o);
  }

  /** `i.scdn.co` is an allowed host and `/art.jpg` an allowed path. */
  lemma SampleImageAllowed(url: ParsedUrl)
    requires url == ParsedUrl("i.scdn.co", "/art.jpg")
    ensures HostAllowed(url.hostname) && ExtAllowed(url.pathname)
  {
    assert OccursAt(url.hostname, AllowedHostPatterns[3], 0);
    HostAllowedAt(url.hostname, 3, 0);
    assert LowerAscii(url.pathname) == "/art.jpg";
    assert HasSuffix(LowerAscii(url.pathname), "." + "jpg");
  }

  /** The sample options serialise to `fit=crop,width=256,height=256,format=webp`. */
  lemma SampleOptionsString(expected: ImageOptions)
    requires expected == [("fit", "crop"), ("width", "256"), ("height", "256"), ("format", "webp")]
    ensures Serialise(expected) == "fit=crop,width=256,height=256,format=webp"
  {
    SerialiseSnoc([], expected[0]);
    assert expected[..1] == [expected[0]];
    assert Serialise(expected[..1]) == "fit=crop";
    SerialiseSnoc(expected[..1], expected[1]);
    assert expected[..2] == expected[..1] + [expected[1]];
    assert Serialise(expected[..2]) == "fit=crop,width=256";
    SerialiseSnoc(expected[..2], expected[2]);
    assert expected[..3] == expected[..2] + [expected[2]];
    assert Serialise(expected[..3]) == "fit=crop,width=256,height=256";
    SerialiseSnoc(expected[..3], expected[3]);
    assert expected == expected[..3] + [expected[3]];
  }

  /** The sample request is forwarded to the transformation service, with the built options alongside. */
  lemma SampleRequestForwarded(q: Params, accept: Option<string>, o: ImageOptions, image: string, url: ParsedUrl,
                       parse: string -> Option<ParsedUrl>)
    requires q == [("image", image), ("width", "256"), ("height", "256"), ("fit", "crop")]
    requires image == "https://i.scdn.co/art.jpg"
    requires accept == Some("image/webp")
    requires o == [("fit", "crop"), ("width", "256"), ("height", "256"), ("format", "webp")]
    requires url == ParsedUrl("i.scdn.co", "/art.jpg") && parse(image) == Some(url)
    ensures Handle(Request(q, accept), parse) ==
              Forward("https://ecwrd.com/cdn-cgi/image/" + "fit=crop,width=256,height=256,format=webp" + "/" +
                      "https://i.scdn.co/art.jpg", o)
  {
    SampleForward(q, accept, o, image, url, parse);
    SampleOptionsString(o);
    SampleUrl(Serialise(o), image);
  }

  lemma SampleUrl(options: string, image: string)
    requires options == "fit=crop,width=256,height=256,format=webp"
    requires image == "https://i.scdn.co/art.jpg"
    ensures Rewrite(options, image) ==
              "https://ecwrd.com/cdn-cgi/image/" + "fit=crop,width=256,height=256,format=webp" + "/" + "https://i.scdn.co/art.jpg"
  {
  }

  lemma SampleForward(q: Params, accept: Option<string>, o: ImageOptions, image: string, url: ParsedUrl,
                       parse: string -> Option<ParsedUrl>)
    requires q == [("image", image), ("width", "256"), ("height", "256"), ("fit", "crop")]
    requires image == "https://i.scdn.co/art.jpg"
    requires accept == Some("image/webp")
    requires o == [("fit", "crop"), ("width", "256"), ("height", "256"), ("format", "webp")]
    requires url == ParsedUrl("i.scdn.co", "/art.jpg") && parse(image) == Some(url)
    ensures Handle(Request(q, accept), parse) == Forward(Rewrite(Serialise(o), image), o)
  {
    WebpOnlyAccept(accept);
    SampleQueryLookups(q);
    SampleOptionsLookups(o);
    SampleOptionsRanked(o);
    SampleOptionsBuilt(q, accept, o);
    SampleImageAllowed(url);
    assert Get(q, "image") == Some(image);
    ForwardsOnlyWhenAllowed(Request(q, accept), parse);
  }

  /** `example.com` holds none of the four pattern texts. */
  lemma ExampleHostRefused(hostname: string)
    requires hostname == "example.com"
    ensures !HostAllowed(hostname)
  {
    var p := AllowedHostPatterns;
    assert 'v' !in hostname && 'w' !in hostname && 's' !in hostname;
    assert 'v' in p[0] && 'w' in p[1] && 'w' in p[2] && 's' in p[3];
    MissingCharNotContained(hostname, p[0], 'v');
    MissingCharNotContained(hostname, p[1], 'w');
    MissingCharNotContained(hostname, p[2], 'w');
    MissingCharNotContained(hostname, p[3], 's');
  }

  /**
   * The request of the handler's own example comment is refused with 403:
   * `example.com` is not on the allowlist, whatever the `Accept` header.
   */
  lemma DocumentedRequestRefused(q: Params, accept: Option<string>, image: string, url: ParsedUrl,
                                 parse: string -> Option<ParsedUrl>)
    requires q == [("image", image), ("width", "256"), ("height", "256"), ("fit", "crop"),
                   ("format", "webp"), ("quality", "75")]
    requires image == "https://example.com/image.jpg"
    requires url.hostname == "example.com" && parse(image) == Some(url)
    ensures Handle(Request(q, accept), parse) == Local(403, "Domain not allowed")
  {
    assert Get(q, "image") == Some(image);
    ExampleHostRefused(url.hostname);
    ForeignHostForbidden(Request(q, accept), parse);
  }

  /**
   * The example's `format=webp` query parameter is not read: the options are
   * those of the query without it, and with no `Accept` header they carry no
   * format at all.
   */
  lemma DocumentedFormatIgnored(q: Params, withoutFormat: Params, accept: Option<string>)
    requires q == [("image", "https://example.com/image.jpg"), ("width", "256"), ("height", "256"),
                   ("fit", "crop"), ("format", "webp"), ("quality", "75")]
    requires withoutFormat == [("image", "https://example.com/image.jpg"), ("width", "256"), ("height", "256"),
                               ("fit", "crop"), ("quality", "75")]
    ensures BuildOptions(q, accept) == BuildOptions(withoutFormat, accept)
    ensures !Has(BuildOptions(q, None), "format")
  {
    assert q == q[..4] + [("format", "webp")] + q[5..];
    assert withoutFormat == q[..4] + q[5..];
    FormatParamIgnored(q[..4], "webp", q[5..], accept);
  }

  /** A value holding `,key=value` serialises like two options. */
  lemma InjectionCollides(k1: string, v1: string, k2: string, v2: string)
    ensures Serialise([(k1, v1 + "," + k2 + "=" + v2)]) == Serialise([(k1, v1), (k2, v2)])
  {
    SerialiseSnoc([], (k1, v1 + "," + k2 + "=" + v2));
    SerialiseSnoc([(k1, v1)], (k2, v2));
    assert [(k1, v1)] + [(k2, v2)] == [(k1, v1), (k2, v2)];
  }

  /**
   * A copied value holding `,` injects an option: `width=1,format=png` with no
   * `Accept` header builds options with `width` alone and no format, but the
   * options string the transformation service reads back carries `format=png`.
   */
  lemma InjectedOptionCarried(q: Params, value: string)
    requires value == "1" + "," + "format" + "=" + "png" && q == [("width", value)]
    ensures BuildOptions(q, None) == [("width", value)] && !Has(BuildOptions(q, None), "format")
    ensures Serialise(BuildOptions(q, None)) == Serialise([("width", "1"), ("format", "png")])
    ensures ParseOptions(Serialise(BuildOptions(q, None))) == Some([("width", "1"), ("format", "png")])
  {
    assert Rank(q[0].0) == 1;
    BuildOptionsDetermined(q, None, q);
    InjectionCollides("width", "1", "format", "png");
    var split: ImageOptions := [("width", "1"), ("format", "png")];
    assert Serialisable(split) by {
      assert ',' !in split[0].0 && '=' !in split[0].0 && ',' !in split[0].1;
      assert ',' !in split[1].0 && '=' !in split[1].0 && ',' !in split[1].1;
    }
    SerialiseRoundTrip(split);
  }
}
