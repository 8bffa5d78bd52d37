/** Spans of blocks.

    A span is divided at every multiple of a size. The lemmas on quotients say
    that what lies between two multiples has one quotient; the division keeps
    its parts chained, each inside one interval. */
module BlockSpans {
  datatype Span = Span(begin: nat, cnt: nat) {
    function End(): nat { begin + cnt }
  }

  predicate Within(part: Span, size: nat)
    requires size > 0
  {
    part.cnt > 0 && part.begin / size == (part.End() - 1) / size
  }

  predicate Aligned(x: nat, size: nat)
    requires size > 0
  {
    x % size == 0
  }

  // the first multiple above x
  function Above(x: nat, size: nat): nat
    requires size > 0
  {
    x + size - x % size
  }

  // every part inside one interval between multiples, each where the one before ends
  ghost predicate Chained(parts: seq<Span>, size: nat)
    requires size > 0
  {
    && (forall i :: 0 <= i < |parts| ==> Within(parts[i], size))
    && (forall i {:trigger parts[i]} :: 0 < i < |parts| ==>
          parts[i].begin == parts[i - 1].End() && Aligned(parts[i].begin, size))
  }

  /** `parts` lists the span in order, cut at every multiple of `size`. */
  ghost predicate Divides(span: Span, size: nat, parts: seq<Span>)
    requires size > 0
  {
    && (span.cnt == 0 <==> parts == []) && Chained(parts, size)
    && (parts != [] ==> parts[0].begin == span.begin && parts[|parts| - 1].End() == span.End())
  }

  method SplitTo(span: Span, at: nat) returns (head: Span, rest: Span)
    requires span.begin <= at < span.End()
    ensures head == Span(span.begin, at - span.begin) && rest == Span(at, span.End() - at)
  {
    head := Span(span.begin, span.cnt - (span.End() - at));
    rest := Span(at, span.cnt - head.cnt);
  }

  lemma InOnePart(part: Span, at: nat, size: nat)
    requires size > 0 && part.cnt > 0 && part.End() <= at && at == Above(part.begin, size)
    ensures Within(part, size)
  {
    var q := part.begin / size;
    assert part.begin == q * size + part.begin % size;
    Quotient(part.End() - 1, q, size);
  }

  lemma Quotient(x: nat, q: nat, size: nat)
    requires size > 0 && q * size <= x < q * size + size
    ensures x / size == q
  {
    var d := x / size;
    assert x == d * size + x % size;
    if d < q {
      assert (d + 1) * size <= q * size by { MulMono(d + 1, q, size); }
    }
    if d > q {
      assert (q + 1) * size <= d * size by { MulMono(q + 1, d, size); }
    }
  }

  lemma MulMono(a: nat, b: nat, c: nat)
    requires a <= b
    ensures a * c <= b * c
  {
  }

  lemma NextMultiple(at: nat, size: nat)
    requires size > 0 && Aligned(at, size)
    ensures at + size == Above(at, size)
  {
  }

  lemma Multiple(q: nat, size: nat)
    requires size > 0
    ensures q * size % size == 0
  {
    Quotient(q * size, q, size);
    assert q * size == q * size / size * size + q * size % size;
  }

  lemma ChainedSnoc(parts: seq<Span>, part: Span, size: nat)
    requires size > 0 && Chained(parts, size) && Within(part, size)
    requires parts != [] ==> part.begin == parts[|parts| - 1].End() && Aligned(part.begin, size)
    ensures Chained(parts + [part], size)
  {
    hide Within, Aligned;
    var all := parts + [part];
    forall i | 0 < i < |all| ensures all[i].begin == all[i - 1].End() && Aligned(all[i].begin, size) {
      if i < |parts| {
        assert parts[i].begin == parts[i - 1].End();
      }
    }
  }

  // the parts cut so far and what is left
  ghost predicate Dividing(span: Span, parts: seq<Span>, rest: Span, size: nat)
    requires size > 0
  {
    && rest.cnt > 0 && rest.End() == span.End() && Chained(parts, size)
    && (parts == [] ==> rest.begin == span.begin)
    && (parts != [] ==>
          parts[0].begin == span.begin && parts[|parts| - 1].End() == rest.begin && Aligned(rest.begin, size))
  }

  lemma DividingStep(span: Span, parts: seq<Span>, rest: Span, at: nat, size: nat)
    requires size > 0 && Dividing(span, parts, rest, size) && rest.begin < at < rest.End() && at == Above(rest.begin, size)
    ensures Dividing(span, parts + [Span(rest.begin, at - rest.begin)], Span(at, rest.End() - at), size)
    ensures at + size == Above(at, size)
  {
    hide Within, Aligned, Above, Chained;
    InOnePart(Span(rest.begin, at - rest.begin), at, size);
    AtMultiple(rest.begin, at, size);
    NextMultiple(at, size);
    ChainedSnoc(parts, Span(rest.begin, at - rest.begin), size);
  }

  lemma DividingEnd(span: Span, parts: seq<Span>, rest: Span, at: nat, size: nat)
    requires size > 0 && span.cnt > 0 && Dividing(span, parts, rest, size)
    requires rest.End() <= at == Above(rest.begin, size)
    ensures Divides(span, size, parts + [rest])
  {
    hide Within, Aligned, Above, Chained;
    InOnePart(rest, at, size);
    ChainedSnoc(parts, rest, size);
  }

  method DivideBy(span: Span, size: nat) returns (parts: seq<Span>)
    requires size > 0
    ensures Divides(span, size, parts)
  {
    parts := [];
    if span.cnt == 0 {
      return;
    }
    var rest := span;
    var at := rest.begin + size - rest.begin % size;
    AtMultiple(rest.begin, at, size);
    assert at == Above(rest.begin, size);
    assert Dividing(span, parts, rest, size);
    hide Divides, Above, Dividing, Aligned;
    while at < rest.End()
      invariant Dividing(span, parts, rest, size) && at == Above(rest.begin, size) && at > rest.begin
      invariant rest.End() == span.End()
      decreases span.End() - at
    {
      DividingStep(span, parts, rest, at, size);
      var head, tail := SplitTo(rest, at);
      parts, rest := parts + [head], tail;
      at := at + size;
    }
    DividingEnd(span, parts, rest, at, size);
    parts := parts + [rest];
  }

  lemma AtMultiple(begin: nat, at: nat, size: nat)
    requires size > 0 && at == Above(begin, size)
    ensures Aligned(at, size) && at > begin
  {
    var q := begin / size;
    assert begin == q * size + begin % size;
    assert at == (q + 1) * size;
    Multiple(q + 1, size);
  }
}
