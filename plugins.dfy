/** The zeep plugin that strips one XML namespace from outgoing envelopes.
    The envelope is the sequence of its elements' tags in document order
    (Clark notation, `{uri}local`), held in an array the pass rewrites. */
module Plugins {
  import opened Text

  /** `'{%s}' % namespace`. */
  function Prefix(ns: string): (p: string)
    ensures |p| == |ns| + 2 && p[0] == '{' && p[|p| - 1] == '}'
    ensures p[1..|p| - 1] == ns
  {
    "{" + ns + "}"
  }

  /** One tag after the pass: the prefix, when present, is cut off exactly,
      and any other tag is left alone. */
  function StripNamespace(tag: string, ns: string): (r: string)
    ensures StartsWith(tag, Prefix(ns)) ==> tag == Prefix(ns) + r && |r| == |tag| - |ns| - 2
    ensures !StartsWith(tag, Prefix(ns)) ==> r == tag
  {
    if StartsWith(tag, Prefix(ns)) then tag[|Prefix(ns)|..] else tag
  }

  /** Every tag of the envelope after the pass, in the same order. */
  function StripAll(tags: seq<string>, ns: string): seq<string> {
    seq(|tags|, i requires 0 <= i < |tags| => StripNamespace(tags[i], ns))
  }

  /** No closing brace is directly followed by an opening one: in a Clark name
      `{uri}local` the local name never starts with `{`. */
  predicate ClarkWellFormed(tag: string) {
    forall i :: 0 <= i < |tag| - 1 && tag[i] == '}' ==> tag[i + 1] != '{'
  }

  class RemoveNamespacePlugin {
    const namespace: string

    constructor(namespace: string)
      ensures this.namespace == namespace
    {
      this.namespace := namespace;
    }

    /** Rewrites the tags in place and hands back the same envelope and
        the headers it was given. */
    method Egress<H>(envelope: array<string>, httpHeaders: H) returns (envelopeOut: array<string>, headersOut: H)
      modifies envelope
      ensures envelopeOut == envelope && headersOut == httpHeaders
      ensures envelope[..] == StripAll(old(envelope[..]), namespace)
    {
      var ns := Prefix(namespace);
      var nsl := |ns|;
      var i := 0;
      while i < envelope.Length
        invariant 0 <= i <= envelope.Length
        invariant forall j :: 0 <= j < i ==> envelope[j] == StripNamespace(old(envelope[j]), namespace)
        invariant forall j :: i <= j < envelope.Length ==> envelope[j] == old(envelope[j])
      {
        if StartsWith(envelope[i], ns) {
          envelope[i] := envelope[i][nsl..];
        }
        i := i + 1;
      }
      return envelope, httpHeaders;
    }
  }

  /** The pass keeps the number and order of elements; each tag either had the
      prefix and lost exactly it, or did not and is unchanged. */
  lemma StripAllPointwise(tags: seq<string>, ns: string)
    ensures |StripAll(tags, ns)| == |tags|
    ensures forall i :: 0 <= i < |tags| ==>
      (if StartsWith(tags[i], Prefix(ns)) then tags[i] == Prefix(ns) + StripAll(tags, ns)[i]
       else StripAll(tags, ns)[i] == tags[i])
  {
  }

  /** On a well-formed Clark name a second pass finds nothing left to strip. */
  lemma StripIdempotent(tag: string, ns: string)
    requires ClarkWellFormed(tag)
    ensures StripNamespace(StripNamespace(tag, ns), ns) == StripNamespace(tag, ns)
  {
    var p := Prefix(ns);
    if StartsWith(tag, p) {
      var r := tag[|p|..];
      assert tag[|p| - 1] == p[|p| - 1] == '}';
      if |r| > 0 {
        assert r[0] == tag[|p|];
        assert r[0] != '{';
        assert r[0] != p[0];
      }
      assert !StartsWith(r, p);
    }
  }

  /** Running the plugin twice over well-formed tags leaves what one run left. */
  lemma StripAllIdempotent(tags: seq<string>, ns: string)
    requires forall i :: 0 <= i < |tags| ==> ClarkWellFormed(tags[i])
    ensures StripAll(StripAll(tags, ns), ns) == StripAll(tags, ns)
  {
    forall i | 0 <= i < |tags|
      ensures StripAll(StripAll(tags, ns), ns)[i] == StripAll(tags, ns)[i]
    {
      StripIdempotent(tags[i], ns);
    }
  }

  /** A pass for a namespace no tag carries leaves the envelope as it was. */
  lemma StripAllUntouched(tags: seq<string>, ns: string)
    requires forall i :: 0 <= i < |tags| ==> !StartsWith(tags[i], Prefix(ns))
    ensures StripAll(tags, ns) == tags
  {
  }
}
