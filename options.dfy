/**
 * The option builder: the image-transformation options the handler collects into
 * `options.cf.image` from four query parameters and the `Accept` header
 * (src/index.ts:27-41). Each conditional assignment of the handler adds one
 * property; an object's string keys enumerate in insertion order, so the options
 * are an ordered list of (name, value) pairs.
 */
module OptionBuilder {
  import opened Wrappers
  import opened Text
  import opened Query

  /** `options.cf.image`, keys in insertion order. */
  type ImageOptions = seq<(string, string)>

  /** The query parameters copied verbatim, in the order the handler copies them. */
  const CopiedKeys: seq<string> := ["fit", "width", "height", "quality"]

  /** Every key the builder can set, in the order it sets them. */
  const KeyOrder: seq<string> := CopiedKeys + ["format"]

  /** Position of an option key in KeyOrder. */
  function Rank(key: string): nat
    requires key in KeyOrder
  {
    if key == "fit" then 0
    else if key == "width" then 1
    else if key == "height" then 2
    else if key == "quality" then 3
    else 4
  }

  /** Only keys the builder knows, each at most once, in the builder's order. */
  predicate Ranked(opts: ImageOptions) {
    && (forall i :: 0 <= i < |opts| ==> opts[i].0 in KeyOrder)
    && (forall i, j :: 0 <= i < j < |opts| ==> Rank(opts[i].0) < Rank(opts[j].0))
  }

  /** Every key of `opts` ranks below `bound`. */
  predicate Below(opts: ImageOptions, bound: nat) {
    forall i :: 0 <= i < |opts| ==> opts[i].0 in KeyOrder && Rank(opts[i].0) < bound
  }

  /** Setting a later key (at most once) keeps the options ranked. */
  lemma RankedStep(opts: ImageOptions, extra: ImageOptions, key: string)
    requires key in KeyOrder && Ranked(opts) && Below(opts, Rank(key))
    requires |extra| <= 1 && forall i :: 0 <= i < |extra| ==> extra[i].0 == key
    ensures Ranked(opts + extra) && Below(opts + extra, Rank(key) + 1)
  {
  }

  /**
   * Format negotiation on the `Accept` header value (none when the header is
   * absent): `avif` when it mentions `image/avif`, otherwise `webp` when it
   * mentions `image/webp`, otherwise no format. The tests are case-sensitive
   * searches anywhere in the header.
   */
  function Negotiate(accept: Option<string>): (format: Option<string>)
    ensures format == Some("avif") <==>
              accept.Some? && exists i: nat :: OccursAt(accept.value, "image/avif", i)
    ensures format == Some("webp") <==>
              && accept.Some?
              && (forall i: nat :: !OccursAt(accept.value, "image/avif", i))
              && (exists i: nat :: OccursAt(accept.value, "image/webp", i))
    ensures format == None <==>
              || accept.None?
              || ((forall i: nat :: !OccursAt(accept.value, "image/avif", i)) &&
                  (forall i: nat :: !OccursAt(accept.value, "image/webp", i)))
  {
    if accept.Some? && Contains(accept.value, "image/avif") then Some("avif")
    else if accept.Some? && Contains(accept.value, "image/webp") then Some("webp")
    else None
  }

  /** `if (url.searchParams.has(key)) options.cf.image[key] = url.searchParams.get(key)` */
  function CopyParam(q: Params, key: string): ImageOptions {
    if Has(q, key) then [(key, Get(q, key).value)] else []
  }

  lemma CopyParamLookup(o: ImageOptions, q: Params, key: string, name: string)
    ensures Get(o + CopyParam(q, key), name) ==
              if name == key && Get(o, key).None? then Get(q, key) else Get(o, name)
  {
    if Has(q, key) {
      GetAppend(o, (key, Get(q, key).value), name);
    } else {
      assert o + CopyParam(q, key) == o;
    }
  }

  /** The four verbatim copies, `fit`, `width`, `height`, `quality` in that order. */
  function CopiedOptions(q: Params): ImageOptions {
    var o0: ImageOptions := [];
    var o1 := o0 + CopyParam(q, "fit");
    var o2 := o1 + CopyParam(q, "width");
    var o3 := o2 + CopyParam(q, "height");
    o3 + CopyParam(q, "quality")
  }

  lemma CopiedRanked(q: Params)
    ensures Ranked(CopiedOptions(q)) && Below(CopiedOptions(q), Rank("format"))
  {
    var o0: ImageOptions := [];
    var o1 := o0 + CopyParam(q, "fit");
    var o2 := o1 + CopyParam(q, "width");
    var o3 := o2 + CopyParam(q, "height");
    RankedStep(o0, CopyParam(q, "fit"), "fit");
    RankedStep(o1, CopyParam(q, "width"), "width");
    RankedStep(o2, CopyParam(q, "height"), "height");
    RankedStep(o3, CopyParam(q, "quality"), "quality");
  }

  lemma CopiedLookup(q: Params, name: string)
    ensures Get(CopiedOptions(q), name) == if name in CopiedKeys then Get(q, name) else None
  {
    var o0: ImageOptions := [];
    var o1 := o0 + CopyParam(q, "fit");
    var o2 := o1 + CopyParam(q, "width");
    var o3 := o2 + CopyParam(q, "height");
    CopyParamLookup(o0, q, "fit", name);
    CopyParamLookup(o1, q, "width", name);
    CopyParamLookup(o2, q, "height", name);
    CopyParamLookup(o3, q, "quality", name);
    CopyParamLookup(o0, q, "fit", "width");
    CopyParamLookup(o0, q, "fit", "height");
    CopyParamLookup(o1, q, "width", "height");
    CopyParamLookup(o0, q, "fit", "quality");
    CopyParamLookup(o1, q, "width", "quality");
    CopyParamLookup(o2, q, "height", "quality");
  }

  /**
   * The options the handler builds. Each copied key is present exactly when the
   * query has it, with the query's (first) value unchanged; `format` is the
   * negotiated format; no other key appears, and keys come in the builder's order.
   */
  function BuildOptions(q: Params, accept: Option<string>): (opts: ImageOptions)
    ensures forall k :: 0 <= k < |CopiedKeys| ==> Get(opts, CopiedKeys[k]) == Get(q, CopiedKeys[k])
    ensures Get(opts, "format") == Negotiate(accept)
    ensures Ranked(opts)
  {
    var o4 := CopiedOptions(q);
    var format := Negotiate(accept);
    assert forall k :: 0 <= k < |CopiedKeys| ==> Get(o4, CopiedKeys[k]) == Get(q, CopiedKeys[k]) by {
      forall k | 0 <= k < |CopiedKeys| { CopiedLookup(q, CopiedKeys[k]); }
    }
    CopiedLookup(q, "format");
    CopiedRanked(q);
    RankedStep(o4, if format.Some? then [("format", format.value)] else [], "format");
    GetAppendOther(o4, ("format", format.GetOr("")));
    if format.Some? then
      GetAppend(o4, ("format", format.value), "format");
      o4 + [("format", format.value)]
    else o4
  }

  /** In ranked options, the pairs after the first never repeat its key. */
  lemma TailLookup(opts: ImageOptions, name: string)
    requires Ranked(opts) && |opts| > 0
    ensures Get(opts[1..], name) == if name == opts[0].0 then None else Get(opts, name)
  {
    if name == opts[0].0 {
      assert forall i :: 0 <= i < |opts[1..]| ==> opts[1..][i] == opts[i + 1];
    }
  }

  /**
   * Ranked options are determined by their lookups: two ranked option lists that
   * agree on every key are the same list, so the order of the keys is fixed.
   */
  /** A key present in ranked options ranks no lower than their first key. */
  lemma FirstRanksLowest(opts: ImageOptions, key: string)
    requires Ranked(opts) && Has(opts, key)
    ensures key in KeyOrder && Rank(opts[0].0) <= Rank(key)
  {
    var i :| 0 <= i < |opts| && opts[i].0 == key;
    assert i == 0 || Rank(opts[0].0) < Rank(opts[i].0);
  }

  lemma SameHead(a: ImageOptions, b: ImageOptions)
    requires Ranked(a) && Ranked(b) && |a| > 0 && |b| > 0
    requires forall k :: k in KeyOrder ==> Get(a, k) == Get(b, k)
    ensures a[0] == b[0]
  {
    var ka, kb := a[0].0, b[0].0;
    assert Get(a, ka) == Some(a[0].1) && Get(b, kb) == Some(b[0].1);
    FirstRanksLowest(b, ka);
    FirstRanksLowest(a, kb);
    assert Rank(ka) == Rank(kb);
  }

  /**
   * Ranked options are determined by their lookups: two ranked option lists that
   * agree on every key are the same list, so the order of the keys is fixed.
   */
  lemma {:induction false} RankedUnique(a: ImageOptions, b: ImageOptions)
    requires Ranked(a) && Ranked(b)
    requires forall k :: k in KeyOrder ==> Get(a, k) == Get(b, k)
    ensures a == b
    decreases |a|
  {
    assert |a| > 0 ==> Get(b, a[0].0).Some?;
    assert |b| > 0 ==> Get(a, b[0].0).Some?;
    if |a| > 0 && |b| > 0 {
      SameHead(a, b);
      forall k | k in KeyOrder ensures Get(a[1..], k) == Get(b[1..], k) {
        TailLookup(a, k);
        TailLookup(b, k);
      }
      RankedUnique(a[1..], b[1..]);
      assert a == [a[0]] + a[1..];
      assert b == [b[0]] + b[1..];
    }
  }

  /**
   * The contract of BuildOptions pins its result down: any ranked option list
   * with the same copies and the same format is exactly the built one.
   */
  lemma BuildOptionsDetermined(q: Params, accept: Option<string>, opts: ImageOptions)
    requires Ranked(opts)
    requires forall k :: 0 <= k < |CopiedKeys| ==> Get(opts, CopiedKeys[k]) == Get(q, CopiedKeys[k])
    requires Get(opts, "format") == Negotiate(accept)
    ensures opts == BuildOptions(q, accept)
  {
    var built := BuildOptions(q, accept);
    forall k | k in KeyOrder ensures Get(opts, k) == Get(built, k) {
      if k != "format" {
        var n :| 0 <= n < |CopiedKeys| && CopiedKeys[n] == k;
      }
    }
    RankedUnique(opts, built);
  }

  /** Only the `fit`, `width`, `height` and `quality` parameters of the query matter. */
  lemma OnlyCopiedKeysMatter(q1: Params, q2: Params, accept: Option<string>)
    requires forall k :: 0 <= k < |CopiedKeys| ==> Get(q1, CopiedKeys[k]) == Get(q2, CopiedKeys[k])
    ensures BuildOptions(q1, accept) == BuildOptions(q2, accept)
  {
    BuildOptionsDetermined(q2, accept, BuildOptions(q1, accept));
  }

  /** A `format` query parameter is ignored: the format comes from `Accept` alone. */
  lemma FormatParamIgnored(q1: Params, value: string, q2: Params, accept: Option<string>)
    ensures BuildOptions(q1 + [("format", value)] + q2, accept) == BuildOptions(q1 + q2, accept)
  {
    forall k | 0 <= k < |CopiedKeys|
      ensures Get(q1 + [("format", value)] + q2, CopiedKeys[k]) == Get(q1 + q2, CopiedKeys[k])
    {
      GetSkip(q1, ("format", value), q2, CopiedKeys[k]);
    }
    OnlyCopiedKeysMatter(q1 + [("format", value)] + q2, q1 + q2, accept);
  }

  /** In ranked options, looking up a pair's key finds that pair's value. */
  lemma RankedGet(opts: ImageOptions, i: nat)
    requires Ranked(opts) && i < |opts|
    ensures Get(opts, opts[i].0) == Some(opts[i].1)
  {
    var key := opts[i].0;
    var j :| 0 <= j < |opts| && opts[j] == (key, Get(opts, key).value) &&
             forall m :: 0 <= m < j ==> opts[m].0 != key;
    assert j <= i;
    assert opts[j].0 == opts[i].0;
  }

  /** Every value the builder sets is a copied query value or a negotiated format. */
  lemma BuiltValue(q: Params, accept: Option<string>, i: nat)
    requires i < |BuildOptions(q, accept)|
    ensures var pair := BuildOptions(q, accept)[i];
            || (pair.0 in CopiedKeys && Get(q, pair.0) == Some(pair.1))
            || (pair.0 == "format" && pair.1 in {"avif", "webp"})
  {
    var opts := BuildOptions(q, accept);
    RankedGet(opts, i);
    if opts[i].0 != "format" {
      var n :| 0 <= n < |CopiedKeys| && CopiedKeys[n] == opts[i].0;
    }
  }
}
