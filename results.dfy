/** Values shared by every control: the optional-value wrapper, the result
    record each control returns, and the text helpers the controls use. */
module Results {

  datatype Option<+T> = None | Some(value: T)

  /** The `Result` field of a control record. Most controls store a Python
      boolean; the manual controls store the text "Manual", and control 1.18
      stores the text "True". */
  datatype Verdict = Bool(b: bool) | Text(s: string)

  /** `str(Result)` as Python prints it. */
  function Str(v: Verdict): (r: string)
    ensures v.Bool? ==> (r == "False" <==> !v.b)
    ensures v.Text? ==> r == v.s
  {
    match v
    case Bool(b) => if b then "True" else "False"
    case Text(s) => s
  }

  /** The dictionary every control returns:
      {'Result', 'failReason', 'Offenders', 'ScoredControl', 'Description', 'ControlId'}. */
  datatype ControlResult = ControlResult(
    result: Verdict,
    failReason: string,
    offenders: seq<string>,
    scoredControl: bool,
    description: string,
    controlId: string)

  /** The record of an enumeration control: `result` starts True and is set to
      False, with the control's fixed reason, the first time an offender is
      appended. */
  function Enumeration(offenders: seq<string>, reason: string, scored: bool,
                       description: string, id: string): (r: ControlResult)
    ensures r.result == Bool(offenders == []) && r.offenders == offenders
    ensures r.failReason == (if offenders == [] then "" else reason)
    ensures r.controlId == id && r.scoredControl == scored && r.description == description
  {
    ControlResult(Bool(offenders == []), if offenders == [] then "" else reason,
                  offenders, scored, description, id)
  }

  /** Python's `sub in s` on strings. */
  predicate Contains(s: string, sub: string)
    decreases |s|
  {
    (|sub| <= |s| && s[..|sub|] == sub) || (|s| > 0 && Contains(s[1..], sub))
  }

  /** An ASCII decimal digit: what `\d` matches in a Python 2 pattern without
      the UNICODE flag, and what `int()` reads. */
  predicate IsDigit(c: char)
  {
    '0' <= c <= '9'
  }

  predicate AllDigits(s: string)
  {
    forall i :: 0 <= i < |s| ==> IsDigit(s[i])
  }

  /** `sub` occurs in `s` starting at index `k`. */
  predicate OccursAt(s: string, sub: string, k: nat)
  {
    k + |sub| <= |s| && s[k..k + |sub|] == sub
  }

  lemma {:induction false} ContainsAt(s: string, sub: string, k: nat)
    requires OccursAt(s, sub, k)
    ensures Contains(s, sub)
    decreases k
  {
    if k > 0 {
      assert s[1..][k - 1..k - 1 + |sub|] == s[k..k + |sub|];
      ContainsAt(s[1..], sub, k - 1);
    }
  }

  lemma {:induction false} ContainsWitness(s: string, sub: string) returns (k: nat)
    requires Contains(s, sub)
    ensures OccursAt(s, sub, k)
    decreases |s|
  {
    if |sub| <= |s| && s[..|sub|] == sub {
      k := 0;
    } else {
      var j := ContainsWitness(s[1..], sub);
      assert s[1..][j..j + |sub|] == s[j + 1..j + 1 + |sub|];
      k := j + 1;
    }
  }

  /** `Contains` is Python's substring test: `sub` occurs somewhere in `s`. */
  lemma ContainsIsSubstring(s: string, sub: string)
    ensures Contains(s, sub) <==> exists k: nat :: OccursAt(s, sub, k)
  {
    if Contains(s, sub) {
      var k := ContainsWitness(s, sub);
    }
    if exists k: nat :: OccursAt(s, sub, k) {
      var k: nat :| OccursAt(s, sub, k);
      ContainsAt(s, sub, k);
    }
  }

  /** A text contains each of its prefixes. */
  lemma ContainsPrefix(p: string, rest: string)
    ensures Contains(p + rest, p)
  {
    assert (p + rest)[..|p|] == p;
  }

  /** A text contains whatever occurs inside it. */
  lemma ContainsInfix(a: string, p: string, b: string)
    ensures Contains(a + p + b, p)
  {
    assert (a + p + b)[|a|..|a| + |p|] == p;
    ContainsAt(a + p + b, p, |a|);
  }

  /** A text contains each of its suffixes. */
  lemma ContainsSuffix(rest: string, p: string)
    ensures Contains(rest + p, p)
  {
    assert (rest + p)[|rest|..|rest| + |p|] == p;
    ContainsAt(rest + p, p, |rest|);
  }

  // ---------------------------------------------------------------------
  // The offenders an enumeration loop collects

  /** The offenders of `xs`, item by item in order: what a loop that appends
      `f(x)` for each `x` of `xs` ends with. */
  function Gather<T>(f: T -> seq<string>, xs: seq<T>): seq<string>
  {
    if xs == [] then [] else Gather(f, xs[..|xs| - 1]) + f(xs[|xs| - 1])
  }

  /** One more loop iteration appends the offenders of the next item. */
  lemma GatherStep<T>(f: T -> seq<string>, xs: seq<T>, i: int)
    requires 0 <= i < |xs|
    ensures Gather(f, xs[..i + 1]) == Gather(f, xs[..i]) + f(xs[i])
  {
    assert xs[..i + 1][..i] == xs[..i];
  }

  lemma {:induction false} GatherConcat<T>(f: T -> seq<string>, a: seq<T>, b: seq<T>)
    ensures Gather(f, a + b) == Gather(f, a) + Gather(f, b)
    decreases |b|
  {
    if b == [] {
      assert a + b == a;
    } else {
      var b' := b[..|b| - 1];
      assert (a + b)[..|a + b| - 1] == a + b';
      GatherConcat(f, a, b');
    }
  }

  /** An offender comes from one item, and every offender of every item is listed. */
  lemma {:induction false} GatherMembers<T>(f: T -> seq<string>, xs: seq<T>, x: string)
    ensures x in Gather(f, xs) <==> exists i :: 0 <= i < |xs| && x in f(xs[i])
    decreases |xs|
  {
    if xs != [] {
      var init := xs[..|xs| - 1];
      GatherMembers(f, init, x);
      assert forall i :: 0 <= i < |init| ==> init[i] == xs[i];
    }
  }

  /** No offender at all exactly when no item has one. */
  lemma {:induction false} GatherEmpty<T>(f: T -> seq<string>, xs: seq<T>)
    ensures Gather(f, xs) == [] <==> forall i :: 0 <= i < |xs| ==> f(xs[i]) == []
    decreases |xs|
  {
    if xs != [] {
      var init := xs[..|xs| - 1];
      GatherEmpty(f, init);
      assert forall i :: 0 <= i < |init| ==> init[i] == xs[i];
    }
  }

  lemma MultisetWithout<T>(a: seq<T>, p: int, b: seq<T>)
    requires 0 <= p < |a| && |b| > 0 && a[p] == b[|b| - 1]
    requires multiset(a) == multiset(b)
    ensures multiset(a[..p] + a[p + 1..]) == multiset(b[..|b| - 1])
  {
    var last := a[p];
    var a', b' := a[..p] + a[p + 1..], b[..|b| - 1];
    assert a == a[..p] + [last] + a[p + 1..];
    assert b == b' + [last];
    forall x | true
      ensures multiset(a')[x] == multiset(b')[x]
    {
      assert multiset(a)[x] == multiset(a')[x] + multiset([last])[x];
      assert multiset(b)[x] == multiset(b')[x] + multiset([last])[x];
    }
  }

  lemma SplitAt<T>(a: seq<T>, p: int)
    requires 0 <= p < |a|
    ensures a == a[..p] + [a[p]] + a[p + 1..]
  {
    assert a[..p + 1] == a[..p] + [a[p]];
    assert a == a[..p + 1] + a[p + 1..];
  }

  lemma GatherSingle<T>(f: T -> seq<string>, x: T)
    ensures Gather(f, [x]) == f(x)
  {
    assert [x][..0] == [];
  }

  /** Removing the item at `p` removes exactly its offenders. */
  lemma GatherWithout<T>(f: T -> seq<string>, a: seq<T>, p: int)
    requires 0 <= p < |a|
    ensures multiset(Gather(f, a)) == multiset(Gather(f, a[..p] + a[p + 1..])) + multiset(f(a[p]))
  {
    var l, m, r := a[..p], [a[p]], a[p + 1..];
    SplitAt(a, p);
    GatherConcat(f, l + m, r);
    GatherConcat(f, l, m);
    GatherConcat(f, l, r);
    GatherSingle(f, a[p]);
    var gl, gm, gr := Gather(f, l), f(a[p]), Gather(f, r);
    assert Gather(f, a) == gl + gm + gr;
    assert Gather(f, l + r) == gl + gr;
    assert multiset(gl + gm + gr) == multiset(gl) + multiset(gm) + multiset(gr);
  }

  /** The offenders do not depend on the order the items are visited in: any
      reordering lists the same offenders, as often. */
  lemma {:induction false} GatherIgnoresOrder<T>(f: T -> seq<string>, a: seq<T>, b: seq<T>)
    requires multiset(a) == multiset(b)
    ensures multiset(Gather(f, a)) == multiset(Gather(f, b))
    decreases |b|
  {
    if b == [] {
      assert a == [] by { assert |a| == |multiset(a)| == 0; }
    } else {
      var last := b[|b| - 1];
      assert last in multiset(a);
      var p :| 0 <= p < |a| && a[p] == last;
      MultisetWithout(a, p, b);
      GatherIgnoresOrder(f, a[..p] + a[p + 1..], b[..|b| - 1]);
      GatherWithout(f, a, p);
    }
  }
}
