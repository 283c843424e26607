/**
 * Splitting a code template into literal code and slot markers, as the
 * puzzle screen does before rendering: the template is split on the pattern
 * `{{SLOT_<digits>}}` with the marker kept as its own part, and each part is
 * then classified by whether the pattern matches inside it.
 */
module Template {

  predicate IsDigit(c: char) {
    '0' <= c <= '9'
  }

  const MarkerOpen: string := "{{SLOT_"
  const MarkerClose: string := "}}"

  /** `s` holds the opening `{{SLOT_` at position `i`. */
  predicate OpensAt(s: string, i: nat) {
    && i + 7 <= |s|
    && s[i] == '{' && s[i + 1] == '{' && s[i + 2] == 'S' && s[i + 3] == 'L'
    && s[i + 4] == 'O' && s[i + 5] == 'T' && s[i + 6] == '_'
  }

  /** `s` holds the closing `}}` at position `j`. */
  predicate ClosesAt(s: string, j: nat) {
    j + 2 <= |s| && s[j] == '}' && s[j + 1] == '}'
  }

  /** `w` is exactly one well-formed marker: `{{SLOT_`, one or more digits, `}}`. */
  predicate IsMarker(w: string) {
    && |w| >= 10
    && OpensAt(w, 0)
    && ClosesAt(w, |w| - 2)
    && forall k :: 7 <= k < |w| - 2 ==> IsDigit(w[k])
  }

  /** Some stretch of `w` is a well-formed marker (what a regular-expression match finds). */
  predicate HasMarker(w: string) {
    exists a, b :: 0 <= a < b <= |w| && IsMarker(w[a..b])
  }

  /** The length of the longest run of digits starting at `s[i]`. */
  function DigitRun(s: string, i: nat): (n: nat)
    requires i <= |s|
    ensures i + n <= |s|
    decreases |s| - i
  {
    if i < |s| && IsDigit(s[i]) then 1 + DigitRun(s, i + 1) else 0
  }

  /** The run is all digits and stops at the end of the text or at a non-digit. */
  lemma {:induction false} DigitRunIsMaximal(s: string, i: nat)
    requires i <= |s|
    ensures forall k :: i <= k < i + DigitRun(s, i) ==> IsDigit(s[k])
    ensures i + DigitRun(s, i) == |s| || !IsDigit(s[i + DigitRun(s, i)])
    decreases |s| - i
  {
    if i < |s| && IsDigit(s[i]) {
      DigitRunIsMaximal(s, i + 1);
    }
  }

  /** The length of the marker that starts at `s[i]`, or 0 when none does. */
  function MarkerAt(s: string, i: nat): (m: nat)
    requires i <= |s|
    ensures i + m <= |s|
  {
    if OpensAt(s, i) then
      var d := DigitRun(s, i + 7);
      if d > 0 && ClosesAt(s, i + 7 + d) then d + 9 else 0
    else 0
  }

  /** What `MarkerAt` finds is a well-formed marker. */
  lemma MarkerAtIsMarker(s: string, i: nat)
    requires i <= |s|
    ensures MarkerAt(s, i) > 0 ==> IsMarker(s[i..i + MarkerAt(s, i)])
  {
    var m := MarkerAt(s, i);
    if m > 0 {
      DigitRunIsMaximal(s, i + 7);
      var w := s[i..i + m];
      assert forall k :: 0 <= k < |w| ==> w[k] == s[i + k];
    }
  }

  /**
   * Because the digits are followed by `}}`, at most one marker starts at a
   * given position, and `MarkerAt` finds it whenever it exists.
   */
  lemma MarkerAtFindsEvery(s: string, i: nat)
    requires i <= |s|
    ensures forall j :: i <= j <= |s| && IsMarker(s[i..j]) ==> MarkerAt(s, i) == j - i
  {
    forall j | i <= j <= |s| && IsMarker(s[i..j]) ensures MarkerAt(s, i) == j - i {
      var w := s[i..j];
      assert forall k :: 0 <= k < |w| ==> w[k] == s[i + k];
      assert OpensAt(s, i);
      var d := DigitRun(s, i + 7);
      DigitRunIsMaximal(s, i + 7);
      assert forall k :: i + 7 <= k < j - 2 ==> IsDigit(s[k]) by {
        forall k | i + 7 <= k < j - 2 ensures IsDigit(s[k]) {
          assert IsDigit(w[k - i]);
        }
      }
      assert !IsDigit(s[j - 2]);
      assert d == j - i - 9;
    }
  }

  /**
   * The parts of `s[start..]` when the scan for the next marker has reached
   * `i`: the literal text before each marker, the marker itself, and the text
   * after the last marker.
   */
  function SplitFrom(s: string, start: nat, i: nat): (parts: seq<string>)
    requires start <= i <= |s|
    ensures |parts| >= 1
    decreases |s| - i
  {
    if i == |s| then [s[start..]]
    else
      var m := MarkerAt(s, i);
      if m > 0 then [s[start..i], s[i..i + m]] + SplitFrom(s, i + m, i + m)
      else SplitFrom(s, start, i + 1)
  }

  /** Splitting on the marker pattern, markers kept: JavaScript's `split` with a capturing group. */
  function Split(s: string): (parts: seq<string>)
    ensures |parts| >= 1
  {
    SplitFrom(s, 0, 0)
  }

  /** The parts joined back together. */
  function Concat(parts: seq<string>): string {
    if parts == [] then "" else parts[0] + Concat(parts[1..])
  }

  lemma {:induction false} ConcatAppend(a: seq<string>, b: seq<string>)
    ensures Concat(a + b) == Concat(a) + Concat(b)
  {
    if a != [] {
      assert (a + b)[1..] == a[1..] + b;
      ConcatAppend(a[1..], b);
    } else {
      assert a + b == b;
    }
  }

  lemma ConcatPair(a: string, b: string, rest: seq<string>)
    ensures Concat([a, b] + rest) == a + b + Concat(rest)
  {
    ConcatAppend([a, b], rest);
    assert [a, b][1..] == [b];
    assert [b][1..] == [];
  }

  lemma SliceJoin(s: string, a: nat, b: nat, c: nat)
    requires a <= b <= c <= |s|
    ensures s[a..] == s[a..b] + s[b..c] + s[c..]
  {
  }

  /** Odd length, markers at the odd positions and marker-free text at the even ones. */
  predicate Alternates(parts: seq<string>) {
    && |parts| % 2 == 1
    && forall k :: 0 <= k < |parts| ==>
         if k % 2 == 0 then !HasMarker(parts[k]) else IsMarker(parts[k])
  }

  /** One step of the scan where a marker starts: the text before it and the marker are emitted. */
  lemma SplitFromTake(s: string, start: nat, i: nat)
    requires start <= i < |s| && MarkerAt(s, i) > 0
    ensures SplitFrom(s, start, i)
         == [s[start..i], s[i..i + MarkerAt(s, i)]] + SplitFrom(s, i + MarkerAt(s, i), i + MarkerAt(s, i))
  {
  }

  /** Joining the parts of a split gives back the text. */
  lemma {:induction false} SplitFromConcat(s: string, start: nat, i: nat)
    requires start <= i <= |s|
    ensures Concat(SplitFrom(s, start, i)) == s[start..]
    decreases |s| - i
  {
    if i < |s| {
      var m := MarkerAt(s, i);
      if m > 0 {
        var rest := SplitFrom(s, i + m, i + m);
        SplitFromTake(s, start, i);
        SplitFromConcat(s, i + m, i + m);
        ConcatPair(s[start..i], s[i..i + m], rest);
        SliceJoin(s, start, i, i + m);
        assert Concat(SplitFrom(s, start, i)) == s[start..];
      } else {
        SplitFromConcat(s, start, i + 1);
        assert Concat(SplitFrom(s, start, i)) == s[start..];
      }
    } else {
      assert [s[start..]][1..] == [];
      assert Concat(SplitFrom(s, start, i)) == s[start..];
    }
  }

  /** Text in which the scan found no marker start contains no marker at all. */
  lemma NoMarkerInGap(s: string, start: nat, e: nat)
    requires start <= e <= |s|
    requires forall p :: start <= p < e ==> MarkerAt(s, p) == 0
    ensures !HasMarker(s[start..e])
  {
    var w := s[start..e];
    forall a, b | 0 <= a < b <= |w| ensures !IsMarker(w[a..b]) {
      assert w[a..b] == s[start + a..start + b] by {
        forall k | 0 <= k < b - a ensures w[a..b][k] == s[start + a..start + b][k] {
          assert w[a + k] == s[start + a + k];
        }
      }
      assert MarkerAt(s, start + a) == 0;
      MarkerAtFindsEvery(s, start + a);
    }
  }

  lemma AlternatesSingle(code: string)
    requires !HasMarker(code)
    ensures Alternates([code])
  {
  }

  lemma AlternatesCons(code: string, marker: string, rest: seq<string>)
    requires !HasMarker(code) && IsMarker(marker) && Alternates(rest)
    ensures Alternates([code, marker] + rest)
  {
    var parts := [code, marker] + rest;
    forall k | 2 <= k < |parts| ensures parts[k] == rest[k - 2] && k % 2 == (k - 2) % 2 { }
  }

  /** The parts of a split alternate between marker-free text and single markers. */
  lemma {:induction false} SplitFromAlternates(s: string, start: nat, i: nat)
    requires start <= i <= |s|
    requires forall p :: start <= p < i ==> MarkerAt(s, p) == 0
    ensures Alternates(SplitFrom(s, start, i))
    decreases |s| - i, 1
  {
    if i == |s| {
      NoMarkerInGap(s, start, i);
      assert s[start..] == s[start..i];
      AlternatesSingle(s[start..]);
    } else if MarkerAt(s, i) > 0 {
      SplitAtMarkerAlternates(s, start, i);
    } else {
      SplitFromAlternates(s, start, i + 1);
    }
  }

  lemma {:induction false} SplitAtMarkerAlternates(s: string, start: nat, i: nat)
    requires start <= i < |s| && MarkerAt(s, i) > 0
    requires forall p :: start <= p < i ==> MarkerAt(s, p) == 0
    ensures Alternates(SplitFrom(s, start, i))
    decreases |s| - i, 0
  {
    var m := MarkerAt(s, i);
    MarkerAtIsMarker(s, i);
    NoMarkerInGap(s, start, i);
    SplitFromAlternates(s, i + m, i + m);
    AlternatesCons(s[start..i], s[i..i + m], SplitFrom(s, i + m, i + m));
  }

  /** Split is a decomposition of its input into alternating text and markers. */
  lemma SplitIsDecomposition(s: string)
    ensures Alternates(Split(s))
    ensures Concat(Split(s)) == s
  {
    SplitFromAlternates(s, 0, 0);
    SplitFromConcat(s, 0, 0);
  }

  /** One rendered part of a template: literal code, or the marker of a slot. */
  datatype Segment = CodeSegment(content: string) | SlotSegment(content: string)

  /** A part is a slot when the marker pattern matches inside it, code otherwise. */
  function Classify(part: string): (seg: Segment)
    ensures seg.content == part
    ensures seg.SlotSegment? <==> HasMarker(part)
  {
    if HasMarker(part) then SlotSegment(part) else CodeSegment(part)
  }

  /** The segments' text in order. */
  function Contents(segs: seq<Segment>): (parts: seq<string>)
    ensures |parts| == |segs|
    ensures forall k :: 0 <= k < |segs| ==> parts[k] == segs[k].content
  {
    seq(|segs|, k requires 0 <= k < |segs| => segs[k].content)
  }

  /**
   * A template split into segments. Whatever the input (no marker, adjacent
   * markers, a marker at either end, a malformed marker), there are 2k+1
   * segments for k markers, code and slot segments alternate starting and
   * ending with code, every slot segment is one well-formed marker, and
   * joining the segments gives back the template.
   */
  function ParseTemplate(t: string): (segs: seq<Segment>)
    ensures |segs| % 2 == 1
    ensures forall k :: 0 <= k < |segs| ==> (segs[k].SlotSegment? <==> k % 2 == 1)
    ensures forall k :: 0 <= k < |segs| && segs[k].SlotSegment? ==> IsMarker(segs[k].content)
    ensures forall k :: 0 <= k < |segs| && segs[k].CodeSegment? ==> !HasMarker(segs[k].content)
    ensures Concat(Contents(segs)) == t
  {
    var parts := Split(t);
    SplitIsDecomposition(t);
    var segs := seq(|parts|, k requires 0 <= k < |parts| => Classify(parts[k]));
    assert forall k :: 0 <= k < |parts| && k % 2 == 1 ==> HasMarker(parts[k]) by {
      forall k | 0 <= k < |parts| && k % 2 == 1 ensures HasMarker(parts[k]) {
        assert parts[k][0..|parts[k]|] == parts[k];
      }
    }
    assert Contents(segs) == parts;
    segs
  }

  /** A template that begins with a marker splits into an empty code part, that marker, and the rest. */
  lemma SplitLeadingMarker(m: string, r: string)
    requires IsMarker(m)
    ensures |Split(m + r)| >= 3
    ensures Split(m + r)[0] == "" && Split(m + r)[1] == m
  {
    var s := m + r;
    assert s[0..|m|] == m;
    MarkerAtFindsEvery(s, 0);
    SplitFromTake(s, 0, 0);
    SplitFromAlternates(s, |m|, |m|);
  }

  /** `{{SLOT_d}}` for a single digit d is a well-formed marker. */
  lemma SlotMarkerIsMarker(d: char)
    requires IsDigit(d)
    ensures IsMarker(MarkerOpen + [d] + MarkerClose)
  {
    var w := MarkerOpen + [d] + MarkerClose;
    assert |w| == 10 && w[7] == d;
  }

  /** A text made of two markers, split at the position `n` where the second begins. */
  lemma TwoMarkerSplit(s: string, n: nat)
    requires n <= |s| && IsMarker(s[0..n]) && IsMarker(s[n..|s|])
    ensures Split(s) == ["", s[0..n], "", s[n..|s|], ""]
  {
    var last := SplitFrom(s, |s|, |s|);
    assert s[|s|..] == "";
    MarkerAtFindsEvery(s, n);
    SplitFromTake(s, n, n);
    var tail := SplitFrom(s, n, n);
    assert tail == ["", s[n..|s|]] + last;
    MarkerAtFindsEvery(s, 0);
    SplitFromTake(s, 0, 0);
    assert Split(s) == ["", s[0..n]] + tail;
  }

  /** Two adjacent markers, which also begin and end the template, leave three empty code parts. */
  lemma AdjacentMarkers(m1: string, m2: string)
    requires IsMarker(m1) && IsMarker(m2)
    ensures Split(m1 + m2) == ["", m1, "", m2, ""]
  {
    var s := m1 + m2;
    assert s[0..|m1|] == m1 && s[|m1|..|s|] == m2;
    TwoMarkerSplit(s, |m1|);
  }

  /** A marker without digits is not recognised: the whole template stays code. */
  lemma MalformedMarkerExample()
    ensures Split("{{SLOT_x}}") == ["{{SLOT_x}}"]
  {
    var s := "{{SLOT_x}}";
    assert DigitRun(s, 7) == 0;
    assert MarkerAt(s, 0) == 0;
    forall p | 0 < p <= |s| ensures MarkerAt(s, p) == 0 { }
  }
}
