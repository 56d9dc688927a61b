/**
 * The domain-name validator of the home page form: the regular expression
 *
 *   ^(?!:\/\/)([a-zA-Z0-9-_]+\.)*[a-zA-Z0-9][a-zA-Z0-9-_]+\.[a-zA-Z]{2,11}?$
 *
 * written out construct by construct (`RegexAccepts`), and the shape it
 * accepts stated over the dot-separated labels of the string
 * (`HasDomainShape`). `RegexAcceptsIffShape` proves the two equal.
 */
module DomainValidator {

  /** `[a-zA-Z]` */
  predicate IsLetter(c: char)
  {
    'a' <= c <= 'z' || 'A' <= c <= 'Z'
  }

  /** `[a-zA-Z0-9]` */
  predicate IsAlnum(c: char)
  {
    IsLetter(c) || '0' <= c <= '9'
  }

  /** `[a-zA-Z0-9-_]`: the `-` after the range `0-9` is a literal hyphen. */
  predicate IsWordChar(c: char)
  {
    IsAlnum(c) || c == '-' || c == '_'
  }

  predicate AllWord(s: string)
  {
    forall i :: 0 <= i < |s| ==> IsWordChar(s[i])
  }

  predicate AllLetters(s: string)
  {
    forall i :: 0 <= i < |s| ==> IsLetter(s[i])
  }

  // ---------------------------------------------------------------------
  // The regular expression, construct by construct
  // ---------------------------------------------------------------------

  /** `(?!:\/\/)`: the input does not start with "://". */
  predicate NoSchemeSeparator(s: string)
  {
    !(|s| >= 3 && s[..3] == "://")
  }

  /**
   * `[a-zA-Z]{2,11}?$`: the lazy repetition takes the fewest letters, from 2
   * up to 11, after which the end-of-input anchor succeeds.
   */
  predicate LazyLettersToEnd(t: string)
  {
    exists n :: 2 <= n <= 11 && n <= |t| && AllLetters(t[..n]) && n == |t|
  }

  /** `[a-zA-Z0-9][a-zA-Z0-9-_]+\.[a-zA-Z]{2,11}?$` against the whole of `s`, with its dot at `k`. */
  predicate HostAndTldAt(s: string, k: int)
  {
    2 <= k < |s| && s[k] == '.' && IsAlnum(s[0]) && AllWord(s[1..k]) && LazyLettersToEnd(s[k + 1..])
  }

  predicate HostAndTld(s: string)
  {
    exists k | 0 <= k < |s| :: HostAndTldAt(s, k)
  }

  /** One iteration of `([a-zA-Z0-9-_]+\.)` at the start of `s`, its dot at `k`. */
  predicate GroupAt(s: string, k: int)
  {
    1 <= k < |s| && s[k] == '.' && AllWord(s[..k])
  }

  /** `([a-zA-Z0-9-_]+\.)*` followed by `HostAndTld`: either no more iterations, or one and the rest. */
  predicate GroupsThenHost(s: string)
    decreases |s|, 1
  {
    HostAndTld(s) || GroupThenMore(s)
  }

  /** One iteration of the group, then `GroupsThenHost` on what follows its dot. */
  predicate GroupThenMore(s: string)
    decreases |s|, 0
  {
    exists k | 0 <= k < |s| :: GroupAt(s, k) && GroupsThenHost(s[k + 1..])
  }

  /** `domainRegex.test(s)`: the anchored pattern, lookahead included. */
  predicate RegexAccepts(s: string)
  {
    NoSchemeSeparator(s) && GroupsThenHost(s)
  }

  // ---------------------------------------------------------------------
  // The accepted shape: (L.)* M . T over the dot-separated labels
  // ---------------------------------------------------------------------

  /** Position of the first dot of `s`. */
  function FirstDot(s: string): (k: nat)
    requires '.' in s
    ensures k < |s| && s[k] == '.'
    ensures forall i :: 0 <= i < k ==> s[i] != '.'
  {
    if s[0] == '.' then 0 else 1 + FirstDot(s[1..])
  }

  /** The labels of `s` between its dots (`s.split(".")`). */
  function Split(s: string): (labels: seq<string>)
    ensures |labels| >= 1
    ensures forall i :: 0 <= i < |labels| ==> '.' !in labels[i]
    decreases |s|
  {
    if '.' !in s then [s]
    else
      var k := FirstDot(s);
      assert '.' !in s[..k];
      [s[..k]] + Split(s[k + 1..])
  }

  /** `labels.join(".")` */
  function Join(labels: seq<string>): string
    requires |labels| >= 1
    decreases |labels|
  {
    if |labels| == 1 then labels[0] else labels[0] + "." + Join(labels[1..])
  }

  /** An earlier label `L`: one or more of `[a-zA-Z0-9-_]`. */
  predicate IsLabel(l: string)
  {
    |l| >= 1 && AllWord(l)
  }

  /** The label `M` before the top-level domain: two or more characters, the first a letter or digit. */
  predicate IsHostLabel(m: string)
  {
    |m| >= 2 && IsAlnum(m[0]) && AllWord(m)
  }

  /** The top-level domain `T`: 2 to 11 ASCII letters. */
  predicate IsTld(t: string)
  {
    2 <= |t| <= 11 && AllLetters(t)
  }

  /** Labels `L1 … Ln M T` in that order, with n >= 0. */
  predicate LabelsHaveDomainShape(ls: seq<string>)
  {
    && |ls| >= 2
    && (forall i :: 0 <= i < |ls| - 2 ==> IsLabel(ls[i]))
    && IsHostLabel(ls[|ls| - 2])
    && IsTld(ls[|ls| - 1])
  }

  predicate HasDomainShape(s: string)
  {
    LabelsHaveDomainShape(Split(s))
  }

  // ---------------------------------------------------------------------
  // Splitting and joining on dots
  // ---------------------------------------------------------------------

  /** A dot that has no dot before it is the first dot. */
  lemma FirstDotUnique(s: string, j: nat)
    requires j < |s| && s[j] == '.'
    requires forall i :: 0 <= i < j ==> s[i] != '.'
    ensures '.' in s && FirstDot(s) == j
  {
  }

  /** Joining the labels gives back the string. */
  lemma {:induction false} JoinSplit(s: string)
    ensures Join(Split(s)) == s
    decreases |s|
  {
    if '.' in s {
      var k := FirstDot(s);
      var rest := s[k + 1..];
      var ls := Split(s);
      assert ls == [s[..k]] + Split(rest);
      assert |ls| > 1;
      assert ls[0] == s[..k];
      assert ls[1..] == Split(rest);
      JoinSplit(rest);
      assert Join(ls) == s[..k] + "." + rest;
      assert s == s[..k] + "." + rest;
    }
  }

  /** Splitting at the first dot. */
  lemma SplitAtFirstDot(s: string, k: nat)
    requires k < |s| && s[k] == '.'
    requires forall i :: 0 <= i < k ==> s[i] != '.'
    ensures Split(s) == [s[..k]] + Split(s[k + 1..])
  {
    FirstDotUnique(s, k);
  }

  lemma SlicesAroundDot(a: string, b: string, k: nat)
    requires k < |a|
    ensures (a + "." + b)[..k] == a[..k]
    ensures (a + "." + b)[k + 1..] == a[k + 1..] + "." + b
    ensures forall i :: 0 <= i < k ==> (a + "." + b)[i] == a[i]
  {
  }

  lemma ConsAppend<T>(x: T, ys: seq<T>, zs: seq<T>)
    ensures [x] + (ys + zs) == ([x] + ys) + zs
  {
  }

  /** Splitting distributes over a dot. */
  lemma {:induction false} SplitAppend(a: string, b: string)
    ensures Split(a + "." + b) == Split(a) + Split(b)
    decreases |a|
  {
    var s := a + "." + b;
    if '.' in a {
      var k := FirstDot(a);
      var a' := a[k + 1..];
      SlicesAroundDot(a, b, k);
      SplitAtFirstDot(s, k);
      SplitAtFirstDot(a, k);
      SplitAppend(a', b);
      ConsAppend(a[..k], Split(a'), Split(b));
    } else {
      assert forall i :: 0 <= i < |a| ==> s[i] != '.' by {
        forall i | 0 <= i < |a| ensures s[i] != '.' { assert s[i] == a[i]; }
      }
      assert s[..|a|] == a && s[|a| + 1..] == b;
      SplitAtFirstDot(s, |a|);
    }
  }

  /** Splitting a join of dot-free labels gives back the labels. */
  lemma {:induction false} SplitJoin(ls: seq<string>)
    requires |ls| >= 1
    requires forall i :: 0 <= i < |ls| ==> '.' !in ls[i]
    ensures Split(Join(ls)) == ls
    decreases |ls|
  {
    var head := ls[0];
    assert Split(head) == [head] by {
      assert '.' !in head;
    }
    if |ls| > 1 {
      var tail := ls[1..];
      assert forall i :: 0 <= i < |tail| ==> tail[i] == ls[i + 1];
      SplitJoin(tail);
      assert Join(ls) == head + "." + Join(tail);
      SplitAppend(head, Join(tail));
      assert ls == [head] + tail;
    }
  }

  // ---------------------------------------------------------------------
  // Facts about the pattern
  // ---------------------------------------------------------------------

  lemma AllWordHasNoDot(s: string)
    requires AllWord(s)
    ensures '.' !in s
  {
    forall i | 0 <= i < |s| ensures s[i] != '.' {
      assert IsWordChar(s[i]);
    }
  }

  /** Anchored by `$`, the lazy `{2,11}?` accepts exactly the strings of 2 to 11 letters. */
  lemma LazyRepetitionIsBounded(t: string)
    ensures LazyLettersToEnd(t) <==> IsTld(t)
  {
    if IsTld(t) {
      assert t[..|t|] == t;
      assert AllLetters(t[..|t|]);
    }
  }

  /** Whatever `GroupsThenHost` accepts starts with a letter, digit, `-` or `_`. */
  lemma GroupsThenHostStart(s: string)
    requires GroupsThenHost(s)
    ensures |s| > 0 && IsWordChar(s[0])
  {
    if !HostAndTld(s) {
      var k :| 0 <= k < |s| && GroupAt(s, k) && GroupsThenHost(s[k + 1..]);
      assert s[..k][0] == s[0];
    }
  }

  /** The `(?!:\/\/)` lookahead never rejects a string that the rest of the pattern accepts. */
  lemma LookaheadIsRedundant(s: string)
    ensures RegexAccepts(s) <==> GroupsThenHost(s)
  {
    if GroupsThenHost(s) {
      GroupsThenHostStart(s);
      assert s[0] != ':';
      if |s| >= 3 {
        assert s[..3][0] == s[0];
      }
    }
  }

  /** The host label of the pattern ends at the first dot. */
  lemma HostAndTldAtFirstDot(s: string, j: int)
    requires HostAndTldAt(s, j)
    ensures '.' in s && FirstDot(s) == j
  {
    forall i | 0 <= i < j ensures s[i] != '.' {
      if i > 0 { assert s[1..j][i - 1] == s[i]; }
    }
    FirstDotUnique(s, j);
  }

  /** An iteration of the group ends at the first dot. */
  lemma GroupAtFirstDot(s: string, j: int)
    requires GroupAt(s, j)
    ensures '.' in s && FirstDot(s) == j
  {
    forall i | 0 <= i < j ensures s[i] != '.' {
      assert IsWordChar(s[..j][i]);
    }
    FirstDotUnique(s, j);
  }

  /** The host-and-TLD part of the pattern, in terms of the labels on either side of the first dot. */
  lemma HostAndTldIff(s: string)
    requires '.' in s
    ensures HostAndTld(s) <==>
      var k := FirstDot(s); IsHostLabel(s[..k]) && '.' !in s[k + 1..] && IsTld(s[k + 1..])
  {
    var k := FirstDot(s);
    var rest := s[k + 1..];
    if HostAndTld(s) {
      var j :| HostAndTldAt(s, j);
      HostAndTldAtFirstDot(s, j);
      LazyRepetitionIsBounded(rest);
      forall i | 0 <= i < k ensures IsWordChar(s[..k][i]) {
        if i > 0 { assert s[1..j][i - 1] == s[i]; }
      }
      forall i | 0 <= i < |rest| ensures rest[i] != '.' {
        assert IsLetter(rest[i]);
      }
    }
    if IsHostLabel(s[..k]) && '.' !in rest && IsTld(rest) {
      LazyRepetitionIsBounded(rest);
      forall i | 0 <= i < k - 1 ensures IsWordChar(s[1..k][i]) {
        assert s[1..k][i] == s[..k][i + 1];
      }
      assert s[..k][0] == s[0];
      assert HostAndTldAt(s, k);
    }
  }

  /** The repeated group, from left to right: its first iteration ends at the first dot. */
  lemma GroupStepTo(s: string)
    requires '.' in s
    ensures GroupThenMore(s) ==> var k := FirstDot(s); IsLabel(s[..k]) && GroupsThenHost(s[k + 1..])
  {
    if GroupThenMore(s) {
      var j :| 0 <= j < |s| && GroupAt(s, j) && GroupsThenHost(s[j + 1..]);
      GroupAtFirstDot(s, j);
    }
  }

  /** The repeated group, from right to left: a label and a dot can start it. */
  lemma GroupStepFrom(s: string)
    requires '.' in s
    ensures (var k := FirstDot(s); IsLabel(s[..k]) && GroupsThenHost(s[k + 1..])) ==> GroupThenMore(s)
  {
    var k := FirstDot(s);
    if IsLabel(s[..k]) && GroupsThenHost(s[k + 1..]) {
      assert GroupAt(s, k);
    }
  }

  /** A label in front of a shaped label sequence keeps the shape exactly when it is a label `L`. */
  lemma ShapeCons(l: string, r: seq<string>)
    requires |r| >= 2
    ensures LabelsHaveDomainShape([l] + r) <==> IsLabel(l) && LabelsHaveDomainShape(r)
  {
    var ls := [l] + r;
    assert ls[|ls| - 2] == r[|r| - 2] && ls[|ls| - 1] == r[|r| - 1];
    if LabelsHaveDomainShape(ls) {
      assert IsLabel(ls[0]);
      forall i | 0 <= i < |r| - 2 ensures IsLabel(r[i]) {
        assert r[i] == ls[i + 1];
      }
    }
    if IsLabel(l) && LabelsHaveDomainShape(r) {
      forall i | 0 <= i < |ls| - 2 ensures IsLabel(ls[i]) {
        if i > 0 { assert ls[i] == r[i - 1]; }
      }
    }
  }

  /** Without a dot, neither the pattern nor the shape holds. */
  lemma NoDotRejected(s: string)
    requires '.' !in s
    ensures !GroupsThenHost(s) && !HasDomainShape(s)
  {
    assert Split(s) == [s];
    forall k | 0 <= k < |s| ensures !HostAndTldAt(s, k) && !GroupAt(s, k) {
      assert s[k] != '.';
    }
  }

  /** With exactly one dot, the pattern holds exactly for `M . T`, as the shape does. */
  lemma LastDotCase(s: string)
    requires '.' in s && '.' !in s[FirstDot(s) + 1..]
    ensures GroupsThenHost(s) <==> HasDomainShape(s)
  {
    var k := FirstDot(s);
    var rest := s[k + 1..];
    HostAndTldIff(s);
    GroupStepTo(s);
    GroupStepFrom(s);
    NoDotRejected(rest);
    assert Split(s) == [s[..k]] + [rest];
  }

  /** With a further dot, the pattern can only consume the first label as a group. */
  lemma PatternDropsFirstLabel(s: string)
    requires '.' in s && '.' in s[FirstDot(s) + 1..]
    ensures GroupsThenHost(s) <==> IsLabel(s[..FirstDot(s)]) && GroupsThenHost(s[FirstDot(s) + 1..])
  {
    HostAndTldIff(s);
    GroupStepTo(s);
    GroupStepFrom(s);
  }

  /** With a further dot, the shape holds when the first label is a label and the rest has the shape. */
  lemma ShapeDropsFirstLabel(s: string)
    requires '.' in s && '.' in s[FirstDot(s) + 1..]
    ensures HasDomainShape(s) <==> IsLabel(s[..FirstDot(s)]) && HasDomainShape(s[FirstDot(s) + 1..])
  {
    var k := FirstDot(s);
    var rest := s[k + 1..];
    SplitAtFirstDot(rest, FirstDot(rest));
    SplitAtFirstDot(s, k);
    ShapeCons(s[..k], Split(rest));
  }

  /** With a further dot, the pattern and the shape both drop the first label. */
  lemma InnerDotCase(s: string)
    requires '.' in s && '.' in s[FirstDot(s) + 1..]
    requires GroupsThenHost(s[FirstDot(s) + 1..]) <==> HasDomainShape(s[FirstDot(s) + 1..])
    ensures GroupsThenHost(s) <==> HasDomainShape(s)
  {
    PatternDropsFirstLabel(s);
    ShapeDropsFirstLabel(s);
  }

  /** What the regular expression accepts is exactly the `(L.)* M . T` shape. */
  lemma {:induction false} GroupsThenHostIffShape(s: string)
    ensures GroupsThenHost(s) <==> HasDomainShape(s)
    decreases |s|
  {
    if '.' !in s {
      NoDotRejected(s);
    } else if '.' !in s[FirstDot(s) + 1..] {
      LastDotCase(s);
    } else {
      GroupsThenHostIffShape(s[FirstDot(s) + 1..]);
      InnerDotCase(s);
    }
  }

  /** `domainRegex.test(s)` holds exactly for strings of the shape `(L.)* M . T`. */
  lemma RegexAcceptsIffShape(s: string)
    ensures RegexAccepts(s) <==> HasDomainShape(s)
  {
    LookaheadIsRedundant(s);
    GroupsThenHostIffShape(s);
  }

  /** The accepted strings are exactly the dot-joins of label sequences `L1 … Ln M T`. */
  /** An accepted string is the dot-join of its own labels, and they have the shape. */
  lemma AcceptedIsJoinOfShapedLabels(s: string)
    requires RegexAccepts(s)
    ensures LabelsHaveDomainShape(Split(s)) && Join(Split(s)) == s
  {
    RegexAcceptsIffShape(s);
    JoinSplit(s);
  }

  /** The dot-join of labels of the shape `L1 … Ln M T` is accepted, and splits back into them. */
  lemma JoinOfShapedLabelsAccepted(ls: seq<string>)
    requires LabelsHaveDomainShape(ls)
    ensures RegexAccepts(Join(ls)) && Split(Join(ls)) == ls
  {
    forall i | 0 <= i < |ls| ensures '.' !in ls[i] {
      AllWordHasNoDot(ls[i]);
    }
    SplitJoin(ls);
    RegexAcceptsIffShape(Join(ls));
  }

  /** Both directions together: accepted exactly when the dot-join of some label sequence `L1 … Ln M T`. */
  lemma AcceptedIffJoinOfShapedLabels(s: string)
    ensures RegexAccepts(s) <==> exists ls :: LabelsHaveDomainShape(ls) && Join(ls) == s
  {
    if RegexAccepts(s) {
      AcceptedIsJoinOfShapedLabels(s);
    }
    if exists ls :: LabelsHaveDomainShape(ls) && Join(ls) == s {
      var ls :| LabelsHaveDomainShape(ls) && Join(ls) == s;
      JoinOfShapedLabelsAccepted(ls);
    }
  }

  /** A subdomain `l.d` of an accepted domain `d` is accepted when `l` is a label. */
  lemma SubdomainAccepted(l: string, d: string)
    requires IsLabel(l) && RegexAccepts(d)
    ensures RegexAccepts(l + "." + d)
  {
    RegexAcceptsIffShape(d);
    RegexAcceptsIffShape(l + "." + d);
    AllWordHasNoDot(l);
    SplitAppend(l, d);
    ShapeCons(l, Split(d));
  }

  /** A one-character label directly before the top-level domain is rejected, with or without labels before it. */
  lemma OneCharacterHostLabelRejected(p: string, c: char, tld: string)
    requires c != '.' && '.' !in tld
    ensures !RegexAccepts([c] + "." + tld)
    ensures !RegexAccepts(p + "." + ([c] + "." + tld))
  {
    var tail := [c] + "." + tld;
    assert Split([c]) == [[c]];
    SplitAppend([c], tld);
    assert Split(tail) == [[c], tld];
    RegexAcceptsIffShape(tail);
    SplitAppend(p, tail);
    var ls := Split(p) + [[c], tld];
    assert ls[|ls| - 2] == [c];
    RegexAcceptsIffShape(p + "." + tail);
  }

  /** Every character of an accepted string is a letter, digit, `-`, `_` or `.`. */
  lemma {:induction false} AcceptedAlphabet(s: string)
    requires GroupsThenHost(s)
    ensures forall i :: 0 <= i < |s| ==> IsWordChar(s[i]) || s[i] == '.'
    decreases |s|
  {
    if HostAndTld(s) {
      var k :| 0 <= k < |s| && HostAndTldAt(s, k);
      LazyRepetitionIsBounded(s[k + 1..]);
      forall i | 0 <= i < |s| ensures IsWordChar(s[i]) || s[i] == '.' {
        if 0 < i < k {
          assert s[i] == s[1..k][i - 1];
        } else if k < i {
          assert s[i] == s[k + 1..][i - k - 1];
        }
      }
    } else {
      var k :| 0 <= k < |s| && GroupAt(s, k) && GroupsThenHost(s[k + 1..]);
      AcceptedAlphabet(s[k + 1..]);
      forall i | 0 <= i < |s| ensures IsWordChar(s[i]) || s[i] == '.' {
        if i < k {
          assert s[i] == s[..k][i];
        } else if k < i {
          assert s[i] == s[k + 1..][i - k - 1];
        }
      }
    }
  }

  /** Any string that starts with `:` is rejected, so the lookahead's "://" never gets through. */
  lemma LeadingColonRejected(s: string)
    requires |s| > 0 && s[0] == ':'
    ensures !RegexAccepts(s)
  {
    if GroupsThenHost(s) {
      GroupsThenHostStart(s);
    }
  }

  /** A string with exactly one dot is accepted exactly when it is `M . T`. */
  lemma TwoLabelVerdict(m: string, t: string)
    requires '.' !in m && '.' !in t
    ensures RegexAccepts(m + "." + t) <==> IsHostLabel(m) && IsTld(t)
  {
    SplitAppend(m, t);
    assert Split(m) == [m] && Split(t) == [t];
    RegexAcceptsIffShape(m + "." + t);
  }

  /** The form's default value is accepted. */
  lemma DefaultDomainAccepted()
    ensures RegexAccepts("openai.com")
  {
    assert IsHostLabel("openai") && IsTld("com");
    TwoLabelVerdict("openai", "com");
    assert "openai" + "." + "com" == "openai.com";
  }

  /** A domain with a two-letter top-level domain is accepted. */
  lemma TwoLetterTldAccepted()
    ensures RegexAccepts("example.co")
  {
    assert IsHostLabel("example") && IsTld("co");
    TwoLabelVerdict("example", "co");
    assert "example" + "." + "co" == "example.co";
  }

  /** A domain with a subdomain label is accepted. */
  lemma SubdomainExampleAccepted()
    ensures RegexAccepts("sub.example.co")
  {
    TwoLetterTldAccepted();
    assert IsLabel("sub");
    SubdomainAccepted("sub", "example.co");
    assert "sub" + "." + "example.co" == "sub.example.co";
  }

  /** The empty string, a one-letter TLD, a one-letter host label, a numeric TLD and a leading "://" are rejected. */
  lemma RejectedExamples()
    ensures !RegexAccepts("")
    ensures !RegexAccepts("a.c")
    ensures !RegexAccepts("x.com")
    ensures !RegexAccepts("example.123")
    ensures !RegexAccepts("://bad.com")
  {
    if GroupsThenHost("") {
      GroupsThenHostStart("");
    }
    TwoLabelVerdict("a", "c");
    assert "a" + "." + "c" == "a.c";
    TwoLabelVerdict("x", "com");
    assert "x" + "." + "com" == "x.com";
    assert !IsLetter("123"[0]);
    TwoLabelVerdict("example", "123");
    assert "example" + "." + "123" == "example.123";
    LeadingColonRejected("://bad.com");
  }
}
