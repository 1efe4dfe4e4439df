/**
 * The option serialiser and the URL rewriter (src/index.ts:70-75): the options
 * become `key=value` pairs joined by `,`, and the forward URL is a fixed prefix,
 * that string, `/`, and the raw `image` value. Beside each, the parser that
 * undoes it, so that the wire format is pinned down by a round trip.
 */
module Rewriter {
  import opened Wrappers
  import opened Text
  import opened OptionBuilder

  /** The transformation service's URL prefix, written out in the handler. */
  const TransformPrefix: string := "https://ecwrd.com/cdn-cgi/image/"

  /** `${key}=${value}` */
  function Render(pair: (string, string)): string {
    pair.0 + "=" + pair.1
  }

  function RenderAll(opts: ImageOptions): (parts: seq<string>)
    ensures |parts| == |opts|
    ensures forall i :: 0 <= i < |opts| ==> parts[i] == Render(opts[i])
  {
    seq(|opts|, i requires 0 <= i < |opts| => Render(opts[i]))
  }

  /**
   * `Object.entries(options.cf.image).map(([key, value]) => `${key}=${value}`).join(",")`;
   * the string is empty exactly when no option is set.
   */
  function Serialise(opts: ImageOptions): (s: string)
    ensures s == "" <==> |opts| == 0
  {
    var parts := RenderAll(opts);
    if |parts| > 0 then JoinStartsWith(parts, ','); Join(parts, ',') else Join(parts, ',')
  }

  /** The transformed URL: `https://ecwrd.com/cdn-cgi/image/${optionsString}/${imageURL}`. */
  function Rewrite(optionsString: string, imageUrl: string): string {
    TransformPrefix + optionsString + "/" + imageUrl
  }

  /** Reads `key=value` pieces back into pairs, cutting each at its first `=`. */
  function ParsePairs(parts: seq<string>): (r: Option<ImageOptions>)
    ensures r.Some? ==> |r.value| == |parts|
  {
    if |parts| == 0 then Some([])
    else
      match (SplitFirst(parts[0], '='), ParsePairs(parts[1..]))
      case (Some(pair), Some(rest)) => Some([pair] + rest)
      case _ => None
  }

  /** Reads an options string back into its pairs; the empty string holds none. */
  function ParseOptions(s: string): Option<ImageOptions> {
    if s == "" then Some([]) else ParsePairs(Split(s, ','))
  }

  /** Splits a transformed URL back into its options string and image URL. */
  function ParseForward(url: string): Option<(string, string)> {
    if |TransformPrefix| <= |url| && url[..|TransformPrefix|] == TransformPrefix then
      SplitFirst(url[|TransformPrefix|..], '/')
    else None
  }

  /** Options the wire format can carry unambiguously. */
  predicate Serialisable(opts: ImageOptions) {
    forall i :: 0 <= i < |opts| ==> ',' !in opts[i].0 && '=' !in opts[i].0 && ',' !in opts[i].1
  }

  lemma JoinStartsWith(parts: seq<string>, sep: char)
    requires |parts| > 0
    ensures |Join(parts, sep)| >= |parts[0]|
  {
  }

  lemma {:induction false} JoinSnoc(parts: seq<string>, last: string, sep: char)
    requires |parts| > 0
    ensures Join(parts + [last], sep) == Join(parts, sep) + [sep] + last
    decreases |parts|
  {
    if |parts| > 1 {
      assert (parts + [last])[1..] == parts[1..] + [last];
      JoinSnoc(parts[1..], last, sep);
    } else {
      assert parts + [last] == [parts[0], last];
    }
  }

  /**
   * Serialisation keeps insertion order: setting one more option appends `,`
   * and its `key=value` to the string; with no options the string is empty.
   */
  lemma SerialiseSnoc(opts: ImageOptions, pair: (string, string))
    ensures Serialise([]) == ""
    ensures Serialise([pair]) == Render(pair)
    ensures |opts| > 0 ==> Serialise(opts + [pair]) == Serialise(opts) + "," + Render(pair)
  {
    if |opts| > 0 {
      assert RenderAll(opts + [pair]) == RenderAll(opts) + [Render(pair)];
      JoinSnoc(RenderAll(opts), Render(pair), ',');
    }
  }

  lemma {:induction false} ParsePairsRender(opts: ImageOptions)
    requires Serialisable(opts)
    ensures ParsePairs(RenderAll(opts)) == Some(opts)
    decreases |opts|
  {
    if |opts| > 0 {
      var parts := RenderAll(opts);
      assert parts[1..] == RenderAll(opts[1..]);
      ParsePairsRender(opts[1..]);
      SplitFirstAt(opts[0].0, opts[0].1, '=');
      assert parts[0] == opts[0].0 + ['='] + opts[0].1;
      assert opts == [opts[0]] + opts[1..];
    }
  }

  /** The options string parses back into exactly the options it was made from. */
  lemma SerialiseRoundTrip(opts: ImageOptions)
    requires Serialisable(opts)
    ensures ParseOptions(Serialise(opts)) == Some(opts)
  {
    var parts := RenderAll(opts);
    if |opts| > 0 {
      JoinStartsWith(parts, ',');
      assert parts[0] != "";
      forall k | 0 <= k < |parts| ensures ',' !in parts[k] {
        assert parts[k] == opts[k].0 + ['='] + opts[k].1;
      }
      SplitJoin(parts, ',');
      ParsePairsRender(opts);
    }
  }

  /**
   * The transformed URL splits back into the options string and the image URL,
   * as long as the options string holds no `/`; the image URL is carried as is.
   */
  lemma RewriteRoundTrip(optionsString: string, imageUrl: string)
    requires '/' !in optionsString
    ensures ParseForward(Rewrite(optionsString, imageUrl)) == Some((optionsString, imageUrl))
  {
    var url := Rewrite(optionsString, imageUrl);
    assert url[..|TransformPrefix|] == TransformPrefix;
    assert url[|TransformPrefix|..] == optionsString + ['/'] + imageUrl;
    SplitFirstAt(optionsString, imageUrl, '/');
  }
}
