/**
 * The brace-depth scanner that recovers the first JSON object from the
 * engine's noisy standard output (`HiveMindProcess.extractJSON(from:)`).
 *
 * The scanner finds the first `{`, then walks forward keeping a depth
 * counter that `{` raises and `}` lowers, and stops when the depth returns
 * to zero or the text runs out. Its result is the text it walked over:
 * either a balanced object or, when the braces never close, the whole
 * tail from the first `{`.
 */
module JsonScanner {
  import opened Wrappers


  /** A half-open range `[start, end)` of character positions. */
  datatype Span = Span(start: nat, end: nat)

  /** Number of occurrences of `c` in `t`. */
  function Count(t: string, c: char): nat
    decreases |t|
  {
    if t == [] then 0
    else Count(t[..|t| - 1], c) + (if t[|t| - 1] == c then 1 else 0)
  }

  /** How one character changes the depth. */
  function Delta(c: char): int
  {
    if c == '{' then 1 else if c == '}' then -1 else 0
  }

  /** The depth reached by scanning `s[i..j]` from depth zero. */
  function Depth(s: string, i: nat, j: nat): int
    requires i <= j <= |s|
    decreases j - i
  {
    if j == i then 0 else Depth(s, i, j - 1) + Delta(s[j - 1])
  }

  /** `Swift.Collection.firstIndex(of:)`: the first position holding `c`. */
  function FirstIndex(s: string, c: char): (r: Option<nat>)
    ensures r.None? <==> c !in s
    ensures r.Some? ==> r.value < |s| && s[r.value] == c && c !in s[..r.value]
    decreases |s|
  {
    if s == [] then None
    else if s[0] == c then Some(0)
    else
      var rest := FirstIndex(s[1..], c);
      assert forall k :: 0 < k <= |s| ==> s[..k] == [s[0]] + s[1..][..k - 1];
      if rest.None? then None else Some(rest.value + 1)
  }

  /**
   * `t` is a complete object: it opens with `{`, ends with `}`, holds as many
   * `{` as `}`, and every proper non-empty prefix holds strictly more `{`.
   */
  ghost predicate BalancedObject(t: string)
  {
    && 2 <= |t| && t[0] == '{' && t[|t| - 1] == '}'
    && Count(t, '{') == Count(t, '}')
    && forall k :: 0 < k < |t| ==> Count(t[..k], '{') > Count(t[..k], '}')
  }

  /** `t` opens with `{` and no non-empty prefix of it closes that brace. */
  ghost predicate UnterminatedObject(t: string)
  {
    && 1 <= |t| && t[0] == '{'
    && forall k :: 0 < k <= |t| ==> Count(t[..k], '{') > Count(t[..k], '}')
  }

  /**
   * `sp` is what the scanner returns on `s`: it starts at the first `{`, the
   * depth stays positive strictly inside it, and it ends where the depth
   * reaches zero or at the end of the text.
   */
  ghost predicate IsExtraction(s: string, sp: Span)
  {
    && sp.start < sp.end <= |s|
    && s[sp.start] == '{' && '{' !in s[..sp.start]
    && (forall k :: sp.start < k < sp.end ==> Depth(s, sp.start, k) >= 1)
    && (Depth(s, sp.start, sp.end) == 0 || sp.end == |s|)
  }

  /** The specification of the scanner: the extraction of `s`, if any. */
  ghost function Extraction(s: string): Option<Span>
  {
    if '{' !in s then None
    else
      ExtractionExists(s);
      var sp :| IsExtraction(s, sp);
      Some(sp)
  }

  /** The depth is the number of `{` minus the number of `}` scanned. */
  lemma {:induction false} DepthCounts(s: string, i: nat, j: nat)
    requires i <= j <= |s|
    ensures Depth(s, i, j) == Count(s[i..j], '{') - Count(s[i..j], '}')
  {
    if j > i {
      DepthCounts(s, i, j - 1);
      assert s[i..j][..j - i - 1] == s[i..j - 1];
    }
  }

  /** The depth depends only on the characters scanned. */
  lemma {:induction false} DepthFrame(s1: string, i1: nat, s2: string, i2: nat, n: nat)
    requires i1 + n <= |s1| && i2 + n <= |s2|
    requires s1[i1..i1 + n] == s2[i2..i2 + n]
    ensures Depth(s1, i1, i1 + n) == Depth(s2, i2, i2 + n)
  {
    if n > 0 {
      assert s1[i1..i1 + n - 1] == s1[i1..i1 + n][..n - 1];
      assert s2[i2..i2 + n - 1] == s2[i2..i2 + n][..n - 1];
      assert s1[i1 + n - 1] == s1[i1..i1 + n][n - 1];
      assert s2[i2 + n - 1] == s2[i2..i2 + n][n - 1];
      DepthFrame(s1, i1, s2, i2, n - 1);
    }
  }

  /** From a prefix of positive depth, the scan can always be completed. */
  lemma {:induction false} ExtendScan(s: string, st: nat, k: nat)
    requires st < k <= |s| && s[st] == '{' && '{' !in s[..st]
    requires forall j :: st < j < k ==> Depth(s, st, j) >= 1
    requires Depth(s, st, k) >= 0
    ensures exists sp :: IsExtraction(s, sp)
    decreases |s| - k
  {
    if Depth(s, st, k) == 0 || k == |s| {
      assert IsExtraction(s, Span(st, k));
    } else {
      ExtendScan(s, st, k + 1);
    }
  }

  lemma ExtractionExists(s: string)
    requires '{' in s
    ensures exists sp :: IsExtraction(s, sp)
  {
    var st := FirstIndex(s, '{').value;
    ExtendScan(s, st, st + 1);
  }

  /** At most one span satisfies the specification. */
  lemma ExtractionUnique(s: string, a: Span, b: Span)
    requires IsExtraction(s, a) && IsExtraction(s, b)
    ensures a == b
  {
  }

  /** `Extraction` is none exactly when there is no `{`, and otherwise meets the specification. */
  lemma ExtractionSpec(s: string)
    ensures Extraction(s).None? <==> '{' !in s
    ensures Extraction(s).Some? ==> IsExtraction(s, Extraction(s).value)
  {
  }

  /** A span meeting the specification is the extraction. */
  lemma ExtractionIs(s: string, sp: Span)
    requires IsExtraction(s, sp)
    ensures Extraction(s) == Some(sp)
  {
  }

  /**
   * What the scanner returns is a balanced object, or else the unterminated
   * tail of the text from the first `{`: never an unbalanced piece cut short.
   */
  lemma ExtractionShape(s: string, sp: Span)
    requires IsExtraction(s, sp)
    ensures BalancedObject(s[sp.start..sp.end])
            || (sp.end == |s| && UnterminatedObject(s[sp.start..sp.end]))
  {
    var t := s[sp.start..sp.end];
    forall k | 0 < k <= |t|
      ensures Count(t[..k], '{') - Count(t[..k], '}') == Depth(s, sp.start, sp.start + k)
    {
      assert t[..k] == s[sp.start..sp.start + k];
      DepthCounts(s, sp.start, sp.start + k);
    }
    assert t[..|t|] == t;
    if Depth(s, sp.start, sp.end) == 0 {
      assert sp.end != sp.start + 1;
      assert Depth(s, sp.start, sp.end - 1) >= 1;
      assert t[|t| - 1] == s[sp.end - 1];
    }
  }

  /** Text with no `{` in front changes nothing about whether there is one. */
  lemma BraceInConcat(p: string, s: string)
    requires '{' !in p
    ensures '{' in p + s <==> '{' in s
  {
  }

  /** A span of `s` moved by `|p|` is a span of `p + s` when `p` holds no `{`. */
  lemma ShiftedExtraction(p: string, s: string, sp: Span)
    requires '{' !in p && IsExtraction(s, sp)
    ensures IsExtraction(p + s, Span(sp.start + |p|, sp.end + |p|))
  {
    var ps := p + s;
    var moved := Span(sp.start + |p|, sp.end + |p|);
    assert ps[..moved.start] == p + s[..sp.start];
    assert ps[moved.start] == s[sp.start];
    forall k | moved.start < k <= moved.end
      ensures Depth(ps, moved.start, k) == Depth(s, sp.start, k - |p|)
    {
      assert ps[moved.start..k] == s[sp.start..k - |p|];
      DepthFrame(ps, moved.start, s, sp.start, k - moved.start);
    }
  }

  /**
   * Text with no `{` in front of the output does not change what is
   * extracted: the span moves by the length of the prefix, and the text it
   * covers stays the same.
   */
  lemma PrependNoise(p: string, s: string)
    requires '{' !in p
    ensures Extraction(p + s).None? <==> Extraction(s).None?
    ensures Extraction(s).Some? ==>
              var sp := Extraction(s).value;
              && Extraction(p + s) == Some(Span(sp.start + |p|, sp.end + |p|))
              && (p + s)[sp.start + |p|..sp.end + |p|] == s[sp.start..sp.end]
  {
    ExtractionSpec(s);
    ExtractionSpec(p + s);
    BraceInConcat(p, s);
    if '{' in s {
      var sp := Extraction(s).value;
      ShiftedExtraction(p, s, sp);
      ExtractionIs(p + s, Span(sp.start + |p|, sp.end + |p|));
      assert (p + s)[sp.start + |p|..sp.end + |p|] == s[sp.start..sp.end];
    }
  }

  /** The depth over an embedded `t` is the balance of the prefixes of `t`. */
  lemma EmbeddedDepth(p: string, t: string, q: string, k: nat)
    requires k <= |t|
    ensures Depth(p + t + q, |p|, |p| + k) == Count(t[..k], '{') - Count(t[..k], '}')
  {
    var s := p + t + q;
    assert s[|p|..|p| + k] == t[0..k] == t[..k];
    DepthFrame(s, |p|, t, 0, k);
    DepthCounts(t, 0, k);
  }

  /** Text before `t` that holds no `{` leaves the first `{` at `t[0]`. */
  lemma FirstBraceAfter(p: string, t: string, q: string)
    requires '{' !in p && |t| > 0 && t[0] == '{'
    ensures var s := p + t + q; s[|p|] == '{' && '{' !in s[..|p|]
  {
  }

  /**
   * Conversely, a balanced object behind text with no `{` is exactly what is
   * extracted, whatever text follows it.
   */
  lemma ExtractsBalancedObject(p: string, t: string, q: string)
    requires '{' !in p && BalancedObject(t)
    ensures Extraction(p + t + q) == Some(Span(|p|, |p| + |t|))
  {
    var s := p + t + q;
    FirstBraceAfter(p, t, q);
    forall k | |p| < k <= |p| + |t|
      ensures Depth(s, |p|, k) == Count(t[..k - |p|], '{') - Count(t[..k - |p|], '}')
    {
      EmbeddedDepth(p, t, q, k - |p|);
    }
    assert t[..|t|] == t;
    ExtractionIs(s, Span(|p|, |p| + |t|));
  }

  /**
   * An object whose braces never close is not rejected: behind text with no
   * `{` it is extracted as the whole tail of the output.
   */
  lemma ExtractsUnterminatedTail(p: string, t: string)
    requires '{' !in p && UnterminatedObject(t)
    ensures Extraction(p + t) == Some(Span(|p|, |p| + |t|))
  {
    var s := p + t + [];
    assert s == p + t;
    FirstBraceAfter(p, t, []);
    forall k | |p| < k <= |p| + |t|
      ensures Depth(s, |p|, k) == Count(t[..k - |p|], '{') - Count(t[..k - |p|], '}')
    {
      EmbeddedDepth(p, t, [], k - |p|);
    }
    ExtractionIs(s, Span(|p|, |p| + |t|));
  }

  /**
   * `extractJSON(from:)`: the first JSON object embedded in `s`, as a span.
   * The loop keeps `depth` equal to the depth of the text scanned so far.
   */
  method ExtractJSON(s: string) returns (r: Option<Span>)
    ensures r == Extraction(s)
    ensures r.None? <==> '{' !in s
    ensures r.Some? ==> IsExtraction(s, r.value)
  {
    var first := FirstIndex(s, '{');
    if first.None? {
      ExtractionSpec(s);
      return None;
    }
    var startIndex := first.value;
    var endIndex := startIndex + 1;
    var depth := 1;
    while depth > 0 && endIndex != |s|
      invariant startIndex < endIndex <= |s|
      invariant depth == Depth(s, startIndex, endIndex)
      invariant forall k :: startIndex < k < endIndex ==> Depth(s, startIndex, k) >= 1
      decreases |s| - endIndex
    {
      match s[endIndex] {
        case '{' => depth := depth + 1;
        case '}' => depth := depth - 1;
        case _ =>
      }
      endIndex := endIndex + 1;
    }
    r := Some(Span(startIndex, endIndex));
    ExtractionIs(s, r.value);
  }

  /** Noise on both sides of a nested object. */
  lemma NoisyExample()
    ensures Extraction("noise{\"a\":{\"b\":1}}more") == Some(Span(5, 18))
  {
    var s := "noise{\"a\":{\"b\":1}}more";
    assert s[..5] == "noise";
    assert Depth(s, 5, 6) == 1;
    assert Depth(s, 5, 7) == 1;
    assert Depth(s, 5, 8) == 1;
    assert Depth(s, 5, 9) == 1;
    assert Depth(s, 5, 10) == 1;
    assert Depth(s, 5, 11) == 2;
    assert Depth(s, 5, 12) == 2;
    assert Depth(s, 5, 13) == 2;
    assert Depth(s, 5, 14) == 2;
    assert Depth(s, 5, 15) == 2;
    assert Depth(s, 5, 16) == 2;
    assert Depth(s, 5, 17) == 1;
    assert Depth(s, 5, 18) == 0;
    forall k | 5 < k < 18 ensures Depth(s, 5, k) >= 1 {
      assert k == 6 || k == 7 || k == 8 || k == 9 || k == 10 || k == 11 || k == 12 || k == 13 || k == 14 || k == 15 || k == 16 || k == 17;
    }
    ExtractionIs(s, Span(5, 18));
  }

  /** Unbalanced braces yield the unterminated tail, not the absence of a result. */
  lemma UnbalancedExample()
    ensures Extraction("log {{}") == Some(Span(4, 7))
  {
    var s := "log {{}";
    assert s[..4] == "log ";
    assert Depth(s, 4, 5) == 1;
    assert Depth(s, 4, 6) == 2;
    assert Depth(s, 4, 7) == 1;
    forall k | 4 < k < 7 ensures Depth(s, 4, k) >= 1 {
      assert k == 5 || k == 6;
    }
    ExtractionIs(s, Span(4, 7));
  }
}
