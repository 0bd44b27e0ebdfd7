/** Account-number redaction of the HTML report: every fragment has each
    match of `\d{12}` replaced by "111111111111". */
module Redaction {
  import opened Results

  const Mask := "111111111111"

  /** Twelve digits start at position `i`: the pattern matches there. */
  predicate MatchesAt(s: string, i: nat)
  {
    i + 12 <= |s| && forall j :: i <= j < i + 12 ==> IsDigit(s[j])
  }

  /** What `re.sub` writes for `s[i..]` when its scan stands at `i`: at a
      match it writes the mask and resumes after the twelve digits,
      elsewhere it copies one character and moves on. */
  function RedactFrom(s: string, i: nat): (r: string)
    requires i <= |s|
    ensures |r| == |s| - i
    decreases |s| - i
  {
    if i == |s| then []
    else if MatchesAt(s, i) then Mask + RedactFrom(s, i + 12)
    else [s[i]] + RedactFrom(s, i + 1)
  }

  /** `re.sub(r"\d{12}", "111111111111", s)`. */
  function Redact(s: string): (r: string)
    ensures |r| == |s|
  {
    RedactFrom(s, 0)
  }

  /** A character is copied, or it is a digit masked by '1'. */
  lemma {:induction false} RedactFromAt(s: string, i: nat, j: int)
    requires i <= j < |s|
    ensures RedactFrom(s, i)[j - i] == s[j] || (RedactFrom(s, i)[j - i] == '1' && IsDigit(s[j]))
    decreases |s| - i
  {
    if MatchesAt(s, i) {
      if j >= i + 12 {
        RedactFromAt(s, i + 12, j);
        assert RedactFrom(s, i)[j - i] == RedactFrom(s, i + 12)[j - i - 12];
      }
    } else if j > i {
      RedactFromAt(s, i + 1, j);
      assert RedactFrom(s, i)[j - i] == RedactFrom(s, i + 1)[j - i - 1];
    }
  }

  /** Each character either stays or becomes '1', and is a digit after
      redaction exactly when it was one before: in particular, characters that
      are not digits are never changed. */
  lemma RedactAt(s: string, j: int)
    requires 0 <= j < |s|
    ensures Redact(s)[j] == s[j] || Redact(s)[j] == '1'
    ensures IsDigit(Redact(s)[j]) <==> IsDigit(s[j])
    ensures !IsDigit(s[j]) ==> Redact(s)[j] == s[j]
  {
    RedactFromAt(s, 0, j);
  }

  /** Position `p` follows a non-digit: no match can straddle it. */
  predicate CleanCut(s: string, p: int)
    requires 0 < p <= |s|
  {
    !IsDigit(s[p - 1])
  }

  /** No match crosses a non-digit, so the scan always stops exactly at a
      point just after one, and redacts the rest from there. */
  lemma {:induction false} RedactFromCut(s: string, i: nat, p: int)
    requires i <= p <= |s| && (p == i || CleanCut(s, p))
    ensures RedactFrom(s, i)[p - i..] == RedactFrom(s, p)
    decreases |s| - i
  {
    if p > i {
      if MatchesAt(s, i) {
        assert p - 1 >= i + 12 by {
          assert !IsDigit(s[p - 1]);
        }
        RedactFromCut(s, i + 12, p);
        assert RedactFrom(s, i)[p - i..] == RedactFrom(s, i + 12)[p - i - 12..];
      } else {
        RedactFromCut(s, i + 1, p);
        assert RedactFrom(s, i)[p - i..] == RedactFrom(s, i + 1)[p - i - 1..];
      }
    }
  }

  /** How many leading digits of a run of L digits the scan masks: twelve
      for each full chunk. */
  function Masked(L: int): nat
    decreases L
  {
    if L < 12 then 0 else 12 + Masked(L - 12)
  }

  lemma {:induction false} MaskedIsFullChunks(L: nat)
    ensures Masked(L) == 12 * (L / 12)
    decreases L
  {
    if L >= 12 {
      MaskedIsFullChunks(L - 12);
      assert L / 12 == (L - 12) / 12 + 1;
    }
  }

  /** A run of L digits starting where the scan stands and ending at a
      non-digit (or the end): its first Masked(L) digits become '1' and the
      rest stay. */
  lemma {:induction false} RedactFromRun(s: string, p: nat, L: int, k: int)
    requires p + L <= |s| && 0 <= k < L
    requires forall j :: p <= j < p + L ==> IsDigit(s[j])
    requires p + L == |s| || !IsDigit(s[p + L])
    ensures RedactFrom(s, p)[k] == if k < Masked(L) then '1' else s[p + k]
    decreases L
  {
    if L >= 12 {
      MaskStep(s, p);
      if k >= 12 {
        RedactFromRun(s, p + 12, L - 12, k - 12);
      }
    } else {
      CopyStep(s, p, L);
      if k > 0 {
        RedactFromRun(s, p + 1, L - 1, k - 1);
      }
    }
  }

  /** At twelve digits the scan writes the mask and resumes after them. */
  lemma MaskStep(s: string, p: nat)
    requires p + 12 <= |s| && forall j :: p <= j < p + 12 ==> IsDigit(s[j])
    ensures forall k :: 0 <= k < 12 ==> RedactFrom(s, p)[k] == '1'
    ensures forall k :: 12 <= k < |s| - p ==> RedactFrom(s, p)[k] == RedactFrom(s, p + 12)[k - 12]
  {
    assert MatchesAt(s, p);
    assert RedactFrom(s, p) == Mask + RedactFrom(s, p + 12);
  }

  /** Before a non-digit fewer than twelve places on, the scan copies one
      character and moves on. */
  lemma CopyStep(s: string, p: nat, L: int)
    requires 0 < L < 12 && p + L <= |s|
    requires p + L == |s| || !IsDigit(s[p + L])
    ensures RedactFrom(s, p)[0] == s[p]
    ensures forall k :: 1 <= k < |s| - p ==> RedactFrom(s, p)[k] == RedactFrom(s, p + 1)[k - 1]
  {
    assert !MatchesAt(s, p) by {
      if p + 12 <= |s| { assert !IsDigit(s[p + L]); }
    }
    assert RedactFrom(s, p) == [s[p]] + RedactFrom(s, p + 1);
  }

  /** A maximal run of digits s[p..p + L] in a fragment: in the redacted
      fragment its first 12 * (L / 12) characters are '1' and the remaining
      ones are the original digits. */
  lemma RedactMaximalRun(s: string, p: nat, L: int, k: int)
    requires 0 <= k < L && p + L <= |s|
    requires forall j :: p <= j < p + L ==> IsDigit(s[j])
    requires p == 0 || !IsDigit(s[p - 1])
    requires p + L == |s| || !IsDigit(s[p + L])
    ensures Redact(s)[p + k] == if k < 12 * (L / 12) then '1' else s[p + k]
  {
    RedactFromCut(s, 0, p);
    assert Redact(s)[p + k] == RedactFrom(s, p)[k];
    RedactFromRun(s, p, L, k);
    MaskedIsFullChunks(L);
  }

  /** Rescanning a redacted text from a point its own scan passed through
      reproduces it. */
  lemma {:induction false} RescanFrom(s: string, r: string, i: nat)
    requires |r| == |s| && i <= |s| && r[i..] == RedactFrom(s, i)
    requires forall j :: i <= j < |s| ==> (IsDigit(r[j]) <==> IsDigit(s[j]))
    ensures RedactFrom(r, i) == r[i..]
    decreases |s| - i
  {
    if i < |s| {
      if MatchesAt(s, i) {
        assert r[i..i + 12] == Mask by {
          assert RedactFrom(s, i)[..12] == Mask;
        }
        assert MatchesAt(r, i) by {
          forall j | i <= j < i + 12 ensures IsDigit(r[j]) {
            assert r[j] == r[i..i + 12][j - i];
          }
        }
        assert r[i + 12..] == RedactFrom(s, i + 12) by {
          assert r[i + 12..] == r[i..][12..];
        }
        RescanFrom(s, r, i + 12);
        assert r[i..] == r[i..i + 12] + r[i + 12..];
      } else {
        assert r[i] == s[i] by {
          assert r[i] == r[i..][0];
        }
        assert !MatchesAt(r, i) by {
          if i + 12 <= |s| {
            var j :| i <= j < i + 12 && !IsDigit(s[j]);
            assert !IsDigit(r[j]);
          }
        }
        assert r[i + 1..] == RedactFrom(s, i + 1) by {
          assert r[i + 1..] == r[i..][1..];
        }
        RescanFrom(s, r, i + 1);
        assert r[i..] == [r[i]] + r[i + 1..];
      }
    }
  }

  /** Redacting a redacted fragment changes nothing. */
  lemma RedactIdempotent(s: string)
    ensures Redact(Redact(s)) == Redact(s)
  {
    var r := Redact(s);
    forall j | 0 <= j < |s| ensures IsDigit(r[j]) <==> IsDigit(s[j]) {
      RedactAt(s, j);
    }
    assert r[0..] == r;
    RescanFrom(s, r, 0);
  }

  /** The loop at lines 2103-2105, rewriting each fragment of the report in
      place. */
  method RedactReport(htmlReport: array<string>)
    modifies htmlReport
    ensures forall n :: 0 <= n < htmlReport.Length ==> htmlReport[n] == Redact(old(htmlReport[n]))
  {
    for n := 0 to htmlReport.Length
      invariant forall m :: 0 <= m < n ==> htmlReport[m] == Redact(old(htmlReport[m]))
      invariant forall m :: n <= m < htmlReport.Length ==> htmlReport[m] == old(htmlReport[m])
    {
      htmlReport[n] := Redact(htmlReport[n]);
    }
  }
}
