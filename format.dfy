/** The trailing-zero trim at the end of `format_double`: the fixed-notation
    text of a value loses the zeros after its last significant digit, and a
    point left at the end goes with them. The fixed six-digit rendering that
    produces the text is not part of this model; the trim takes that text. */
module Format {

  /** The text up to its last character other than `0`. */
  function DropZeros(s: string): (r: string)
    ensures |r| <= |s| && r == s[..|r|]
    ensures forall k :: |r| <= k < |s| ==> s[k] == '0'
    ensures r == [] || r[|r| - 1] != '0'
  {
    if s != [] && s[|s| - 1] == '0' then DropZeros(s[..|s| - 1]) else s
  }

  /** A text that holds a character other than `0`: the trim reads the last
      character after erasing, so an all-zero text is outside what it handles. */
  predicate HasNonZero(s: string) {
    exists k :: 0 <= k < |s| && s[k] != '0'
  }

  /** What the trim leaves of `s`. */
  function Trimmed(s: string): (t: string)
    requires HasNonZero(s)
    // a prefix of the text ...
    ensures |t| <= |s| && t == s[..|t|]
    // ... that drops only zeros, and a point right after what it keeps ...
    ensures forall k :: |t| <= k < |s| ==> s[k] == '0' || (k == |t| && s[k] == '.')
    // ... and ends in `0` or `.` only where it stopped at a point
    ensures t != [] && (t[|t| - 1] == '0' || t[|t| - 1] == '.') ==> |t| < |s| && s[|t|] == '.'
  {
    DropZerosKeepsNonZero(s);
    var r := DropZeros(s);
    if r[|r| - 1] == '.' then r[..|r| - 1] else r
  }

  /** The trim as the source writes it: erase from just after the last
      character other than `0`, then drop a trailing point. */
  method TrimZeros(s: string) returns (t: string)
    requires HasNonZero(s)
    ensures t == Trimmed(s)
  {
    var end := |s|;
    while end > 0 && s[end - 1] == '0'
      invariant 0 <= end <= |s|
      invariant DropZeros(s[..end]) == DropZeros(s)
    {
      assert s[..end - 1] == s[..end][..end - 1];
      end := end - 1;
    }
    assert DropZeros(s[..end]) == s[..end];
    t := s[..end];
    if t[|t| - 1] == '.' {
      t := t[..|t| - 1];
    }
  }

  lemma DropZerosKeepsNonZero(s: string)
    requires HasNonZero(s)
    ensures DropZeros(s) != []
  {
    var k :| 0 <= k < |s| && s[k] != '0';
    var r := DropZeros(s);
    assert k < |r|;
  }

  /** The number of `.` in a text. */
  function Points(s: string): nat {
    if s == [] then 0 else Points(s[..|s| - 1]) + (if s[|s| - 1] == '.' then 1 else 0)
  }

  /** On fixed-notation text, whose only `.` sits at index `p` after the
      integer digits: the trim keeps a prefix holding the whole integer part,
      removes nothing but zeros after the point and the point itself, and
      leaves neither a trailing `0` after the point nor a trailing `.`. */
  lemma TrimFixed(s: string, p: nat)
    requires p < |s| && s[p] == '.' && Points(s) == 1
    ensures HasNonZero(s)
    ensures p <= |Trimmed(s)| && Trimmed(s) == s[..|Trimmed(s)|]
    ensures forall k :: |Trimmed(s)| <= k < |s| ==> s[k] == '0' || k == p
    ensures Trimmed(s) == [] || Trimmed(s)[|Trimmed(s)| - 1] != '.'
    ensures p < |Trimmed(s)| ==> Trimmed(s)[|Trimmed(s)| - 1] != '0'
  {
    assert s[p] != '0';
    var t := Trimmed(s);
    if |t| < |s| && s[|t|] == '.' {
      OnlyPoint(s, p, |t|);
    }
    if t != [] && t[|t| - 1] == '.' {
      OnlyPoint(s, |t| - 1, |t|);
    }
  }

  /** With exactly one `.`, every `.` is at its index. */
  lemma {:induction false} OnlyPoint(s: string, p: nat, q: nat)
    requires p < |s| && q < |s| && s[p] == '.' && s[q] == '.'
    requires Points(s) == 1
    ensures p == q
  {
    if p != q {
      var lo, hi := if p < q then p else q, if p < q then q else p;
      TwoPoints(s, lo, hi);
    }
  }

  lemma {:induction false} TwoPoints(s: string, lo: nat, hi: nat)
    requires lo < hi < |s| && s[lo] == '.' && s[hi] == '.'
    ensures Points(s) >= 2
    decreases |s|
  {
    var init := s[..|s| - 1];
    if hi == |s| - 1 {
      assert init[lo] == '.';
      AtLeastOne(init, lo);
    } else {
      assert init[lo] == '.' && init[hi] == '.';
      TwoPoints(init, lo, hi);
    }
  }

  lemma {:induction false} AtLeastOne(s: string, k: nat)
    requires k < |s| && s[k] == '.'
    ensures Points(s) >= 1
    decreases |s|
  {
    if k < |s| - 1 {
      assert s[..|s| - 1][k] == '.';
      AtLeastOne(s[..|s| - 1], k);
    }
  }
}
