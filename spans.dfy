/** Source spans and span-carrying values (`Spanned<T>`).

    A span is chumsky's `SimpleSpan`: the byte range `start..end` of the
    source text, whose context is the unit type and so is left out. */
module Spans {

  datatype Span = Span(start: nat, end: nat)

  /** A payload together with the span it was parsed from. */
  datatype Spanned<T> = Spanned(value: T, span: Span)

  function Min(a: nat, b: nat): nat {
    if a <= b then a else b
  }

  function Max(a: nat, b: nat): nat {
    if a <= b then b else a
  }

  /** The range covered by `outer` includes the one covered by `inner`. */
  predicate Covers(outer: Span, inner: Span) {
    outer.start <= inner.start && inner.end <= outer.end
  }

  /** `concat_span`: the smallest span reaching from the earlier start to the later end. */
  function ConcatSpan(s1: Span, s2: Span): (r: Span)
    ensures r.start <= s1.start && r.start <= s2.start
    ensures r.start == s1.start || r.start == s2.start
    ensures r.end >= s1.end && r.end >= s2.end
    ensures r.end == s1.end || r.end == s2.end
  {
    Span(Min(s1.start, s2.start), Max(s1.end, s2.end))
  }

  /** The concatenation covers both spans, and every span covering both covers it. */
  lemma ConcatIsLeastCover(s1: Span, s2: Span, c: Span)
    ensures Covers(ConcatSpan(s1, s2), s1) && Covers(ConcatSpan(s1, s2), s2)
    ensures Covers(c, s1) && Covers(c, s2) ==> Covers(c, ConcatSpan(s1, s2))
  {
  }

  lemma ConcatCommutes(s1: Span, s2: Span)
    ensures ConcatSpan(s1, s2) == ConcatSpan(s2, s1)
  {
  }

  lemma ConcatIdempotent(s: Span)
    ensures ConcatSpan(s, s) == s
  {
  }

  lemma ConcatAssociates(s1: Span, s2: Span, s3: Span)
    ensures ConcatSpan(ConcatSpan(s1, s2), s3) == ConcatSpan(s1, ConcatSpan(s2, s3))
  {
  }

  /** `map_new`, `map_move` and `map_into`: all three apply a conversion to the
      payload and keep the span (they differ only in how Rust borrows). */
  function Map<T, R>(s: Spanned<T>, f: T -> R): (r: Spanned<R>)
    ensures r.span == s.span
  {
    Spanned(f(s.value), s.span)
  }

  /** Mapping with the identity changes nothing, and two maps fuse into one. */
  lemma MapFunctorLaws<T, R, U>(s: Spanned<T>, f: T -> R, g: R -> U)
    ensures Map(s, (x: T) => x) == s
    ensures Map(Map(s, f), g) == Map(s, (x: T) => g(f(x)))
    ensures Map(s, f).value == f(GetValue(s))
  {
  }

  /** `get_value`: the payload, which together with the span rebuilds the value. */
  function GetValue<T>(s: Spanned<T>): (v: T)
    ensures Spanned(v, s.span) == s
  {
    s.value
  }

  /** The handwritten `Hash`: only the payload is fed to the hasher, so the
      hash is that of `get_value` whatever the span. */
  function Hash<T>(s: Spanned<T>, hashPayload: T -> int): (h: int)
    ensures h == hashPayload(GetValue(s))
  {
    hashPayload(s.value)
  }

  /** The handwritten `Clone`: clones the payload and copies the span. */
  function Clone<T>(s: Spanned<T>, clonePayload: T -> T): (c: Spanned<T>)
    ensures GetValue(c) == clonePayload(GetValue(s))
    ensures c.span == s.span
  {
    Spanned(clonePayload(s.value), s.span)
  }

  /** Derived equality compares payload and span, while the hash ignores the
      span: two values that differ only in their spans are unequal yet hash
      alike, and equal values always hash alike. */
  lemma EqualityAndHash<T>(v: T, a: Span, b: Span, hashPayload: T -> int)
    ensures (Spanned(v, a) == Spanned(v, b)) <==> a == b
    ensures Hash(Spanned(v, a), hashPayload) == Hash(Spanned(v, b), hashPayload)
  {
  }

  /** A clone keeps the identical span, and with the identity payload clone
      (every payload type the parser spans is a plain value) it is the original. */
  lemma CloneKeepsSpan<T>(s: Spanned<T>, clonePayload: T -> T)
    ensures Clone(s, clonePayload).span == s.span
    ensures Clone(s, (x: T) => x) == s
  {
  }
}
