/** The e-mail test of client/src/auth/ForgatPassword.tsx, the regular
    expression `^[\w-.]+@([\w-]+\.)+[\w-]{2,4}$`. Inside a class, `\w-.` reads
    the `-` literally, so the local part ranges over letters, digits, `_`, `-`
    and `.`; labels of the domain range over letters, digits, `_` and `-`. */
module EmailPattern {
  import opened Text

  predicate LocalChar(c: char) {
    IsWordChar(c) || c == '-' || c == '.'
  }

  predicate LabelChar(c: char) {
    IsWordChar(c) || c == '-'
  }

  /** `[\w-.]+`. */
  predicate LocalRun(s: string) {
    |s| > 0 && forall i :: 0 <= i < |s| ==> LocalChar(s[i])
  }

  /** `[\w-]+`. */
  predicate LabelRun(s: string) {
    |s| > 0 && forall i :: 0 <= i < |s| ==> LabelChar(s[i])
  }

  /** `[\w-]{2,4}`. */
  predicate TopLabel(s: string) {
    2 <= |s| <= 4 && LabelRun(s)
  }

  /** `([\w-]+\.)+[\w-]{2,4}`, with the repetition unrolled from the left: a
      label, a dot, then either the final label or another such domain. */
  ghost predicate DomainRegex(d: string)
    decreases |d|
  {
    exists j :: 0 < j < |d| && d[j] == '.' && LabelRun(d[..j])
      && (TopLabel(d[j + 1..]) || DomainRegex(d[j + 1..]))
  }

  /** The whole expression, anchored at both ends. */
  ghost predicate EmailRegex(s: string) {
    exists i :: 0 <= i < |s| && s[i] == '@' && LocalRun(s[..i]) && DomainRegex(s[i + 1..])
  }

  /** The domain, read by splitting on dots: at least two labels, each a
      non-empty run of label characters, the last of length 2 to 4. */
  predicate DomainShape(d: string) {
    LabelsShape(Split(d, '.'))
  }

  /** At least two labels, each a non-empty run, the last of length 2 to 4. */
  predicate LabelsShape(labels: seq<string>) {
    |labels| >= 2
    && (forall k :: 0 <= k < |labels| ==> LabelRun(labels[k]))
    && 2 <= |labels[|labels| - 1]| <= 4
  }

  /** A label in front of a well-shaped label list keeps it well shaped. */
  lemma LabelsShapeCons(w: string, rest: seq<string>)
    requires LabelRun(w) && LabelsShape(rest)
    ensures LabelsShape([w] + rest)
  {
    var labels := [w] + rest;
    assert forall k :: 1 <= k < |labels| ==> labels[k] == rest[k - 1];
  }

  /** Dropping the first of three or more well-shaped labels keeps the rest
      well shaped. */
  lemma LabelsShapeTail(labels: seq<string>)
    requires LabelsShape(labels) && |labels| > 2
    ensures LabelsShape(labels[1..])
  {
    var rl := labels[1..];
    assert forall k :: 0 <= k < |rl| ==> rl[k] == labels[k + 1];
  }

  /** The address, read by splitting on `@`: exactly one `@`, a non-empty
      local part and a well-shaped domain. */
  predicate AcceptsEmail(s: string) {
    var parts := Split(s, '@');
    |parts| == 2 && LocalRun(parts[0]) && DomainShape(parts[1])
  }

  /** Splitting at the first separator. */
  lemma {:induction false} SplitAtFirst(a: string, sep: char, b: string)
    requires sep !in a
    ensures Split(a + [sep] + b, sep) == [a] + Split(b, sep)
    decreases |a|
  {
    if |a| == 0 {
      assert a + [sep] + b == [sep] + b;
      assert ([sep] + b)[1..] == b;
    } else {
      assert sep !in a[1..] by {
        assert forall k :: 0 <= k < |a[1..]| ==> a[1..][k] == a[k + 1];
      }
      SplitAtFirst(a[1..], sep, b);
      var s := a + [sep] + b;
      assert s[1..] == a[1..] + [sep] + b;
      assert [a[0]] + a[1..] == a;
    }
  }

  lemma RunHasNoDot(s: string)
    requires LabelRun(s)
    ensures '.' !in s && '@' !in s
  {
  }

  /** A label, a dot and either a final label or a well-shaped domain make a
      well-shaped domain. */
  lemma DotJoinShape(w: string, r: string)
    requires LabelRun(w)
    requires TopLabel(r) || DomainShape(r)
    ensures DomainShape(w + ['.'] + r)
  {
    RunHasNoDot(w);
    SplitAtFirst(w, '.', r);
    if TopLabel(r) {
      RunHasNoDot(r);
      SplitNoSeparator(r, '.');
      assert Split(w + ['.'] + r, '.') == [w, r];
    } else {
      LabelsShapeCons(w, Split(r, '.'));
    }
  }

  /** Every domain the regular expression matches has the split shape. */
  lemma {:induction false} DomainRegexToShape(d: string)
    requires DomainRegex(d)
    ensures DomainShape(d)
    decreases |d|, 1
  {
    var j :| 0 < j < |d| && d[j] == '.' && LabelRun(d[..j])
      && (TopLabel(d[j + 1..]) || DomainRegex(d[j + 1..]));
    DomainMatchAtToShape(d, j);
  }

  /** A domain match whose first dot sits at position `j` has the split
      shape. */
  lemma {:induction false} DomainMatchAtToShape(d: string, j: int)
    requires 0 < j < |d| && d[j] == '.' && LabelRun(d[..j])
    requires TopLabel(d[j + 1..]) || DomainRegex(d[j + 1..])
    ensures DomainShape(d)
    decreases |d|, 0
  {
    var w, r := d[..j], d[j + 1..];
    if !TopLabel(r) {
      DomainRegexToShape(r);
    }
    DotJoinShape(w, r);
    assert d == w + ['.'] + r;
  }

  /** Every domain with the split shape is matched by the regular expression. */
  lemma {:induction false} DomainShapeToRegex(d: string)
    requires DomainShape(d)
    ensures DomainRegex(d)
    decreases |d|
  {
    var labels := Split(d, '.');
    JoinSplit(d, '.');
    var w := labels[0];
    var rl := labels[1..];
    var r := Join(rl, '.');
    assert d == w + ['.'] + r;
    var j := |w|;
    assert d[..j] == w && d[j] == '.' && d[j + 1..] == r;
    SplitJoin(rl, '.');
    if |labels| == 2 {
      assert r == labels[1];
      assert TopLabel(d[j + 1..]);
    } else {
      LabelsShapeTail(labels);
      DomainShapeToRegex(r);
    }
  }

  /** The regular expression and the split reading agree on domains. */
  lemma DomainRegexIffShape(d: string)
    ensures DomainRegex(d) <==> DomainShape(d)
  {
    if DomainRegex(d) {
      DomainRegexToShape(d);
    }
    if DomainShape(d) {
      DomainShapeToRegex(d);
    }
  }

  /** A domain accepted either way contains no `@`. */
  lemma {:induction false} DomainHasNoAt(d: string)
    requires DomainShape(d)
    ensures '@' !in d
  {
    var labels := Split(d, '.');
    JoinSplit(d, '.');
    JoinHasNoAt(labels);
  }

  lemma {:induction false} JoinHasNoAt(labels: seq<string>)
    requires forall k :: 0 <= k < |labels| ==> LabelRun(labels[k])
    ensures '@' !in Join(labels, '.')
    decreases |labels|
  {
    if |labels| > 1 {
      JoinHasNoAt(labels[1..]);
      RunHasNoDot(labels[0]);
    } else if |labels| == 1 {
      RunHasNoDot(labels[0]);
    }
  }

  /** A local part, an `@` and a well-shaped domain make an accepted address. */
  lemma AcceptsFromPieces(l: string, d: string)
    requires LocalRun(l) && DomainShape(d)
    ensures AcceptsEmail(l + ['@'] + d)
  {
    DomainHasNoAt(d);
    LocalHasNoAt(l);
    SplitOnce(l, '@', d);
  }

  lemma EmailRegexToAccepts(s: string)
    requires EmailRegex(s)
    ensures AcceptsEmail(s)
  {
    var i :| 0 <= i < |s| && s[i] == '@' && LocalRun(s[..i]) && DomainRegex(s[i + 1..]);
    MatchAtToAccepts(s, i);
  }

  /** A match whose `@` sits at position `i` is an accepted address. */
  lemma MatchAtToAccepts(s: string, i: int)
    requires 0 <= i < |s| && s[i] == '@'
    requires LocalRun(s[..i]) && DomainRegex(s[i + 1..])
    ensures AcceptsEmail(s)
  {
    var l, d := s[..i], s[i + 1..];
    assert s == l + ['@'] + d;
    DomainRegexToShape(d);
    AcceptsFromPieces(l, d);
  }

  lemma LocalHasNoAt(l: string)
    requires LocalRun(l)
    ensures '@' !in l
  {
  }

  lemma AcceptsToEmailRegex(s: string)
    requires AcceptsEmail(s)
    ensures EmailRegex(s)
  {
    var parts := Split(s, '@');
    JoinSplit(s, '@');
    var l, d := parts[0], parts[1];
    assert s == l + ['@'] + d;
    var i := |l|;
    assert s[..i] == l && s[i] == '@' && s[i + 1..] == d;
    DomainShapeToRegex(d);
  }

  /** The regular expression and the split reading accept the same addresses. */
  lemma EmailRegexIffAccepts(s: string)
    ensures EmailRegex(s) <==> AcceptsEmail(s)
  {
    if EmailRegex(s) {
      EmailRegexToAccepts(s);
    }
    if AcceptsEmail(s) {
      AcceptsToEmailRegex(s);
    }
  }

  /** Splitting a text with one separator. */
  lemma SplitOnce(a: string, sep: char, b: string)
    requires sep !in a && sep !in b
    ensures Split(a + [sep] + b, sep) == [a, b]
  {
    SplitAtFirst(a, sep, b);
    SplitNoSeparator(b, sep);
  }

  /** Examples: a two-letter ending passes; a one-letter or five-letter ending,
      a missing dot, a second `@` or an empty local part fail. */
  lemma AcceptedExample()
    ensures AcceptsEmail("a@b.co")
  {
    assert LocalRun("a") && LabelRun("b") && TopLabel("co");
    DotJoinShape("b", "co");
    assert "b" + ['.'] + "co" == "b.co";
    AcceptsFromPieces("a", "b.co");
    assert "a" + ['@'] + "b.co" == "a@b.co";
  }

  /** An address with a two-label domain is accepted exactly when the local
      part is a run, the first label a run and the last label a run of two to
      four characters. */
  lemma TwoLabelAddress(l: string, w: string, t: string)
    requires '@' !in l && '@' !in w && '@' !in t && '.' !in w && '.' !in t
    ensures AcceptsEmail(l + ['@'] + (w + ['.'] + t)) <==> LocalRun(l) && LabelRun(w) && TopLabel(t)
  {
    var d := w + ['.'] + t;
    assert '@' !in d by {
      assert forall k :: 0 <= k < |d| ==> d[k] == (if k < |w| then w[k] else if k == |w| then '.' else t[k - |w| - 1]);
    }
    SplitOnce(l, '@', d);
    SplitOnce(w, '.', t);
    var labels := [w, t];
    assert Split(d, '.') == labels;
    assert LabelsShape(labels) <==> LabelRun(w) && TopLabel(t) by {
      assert labels[0] == w && labels[1] == t;
    }
    assert AcceptsEmail(l + ['@'] + d) <==> LocalRun(l) && DomainShape(d);
  }

  /** A last label shorter than two or longer than four characters fails. */
  lemma EndingLengthRejected()
    ensures !AcceptsEmail("a@b.c")
    ensures !AcceptsEmail("a@b.abcde")
  {
    TwoLabelAddress("a", "b", "c");
    assert "a" + ['@'] + ("b" + ['.'] + "c") == "a@b.c";
    TwoLabelAddress("a", "b", "abcde");
    assert "a" + ['@'] + ("b" + ['.'] + "abcde") == "a@b.abcde";
  }

  lemma MissingDotRejected()
    ensures !AcceptsEmail("a@b")
  {
    SplitOnce("a", '@', "b");
    assert "a" + ['@'] + "b" == "a@b";
    SplitNoSeparator("b", '.');
  }

  lemma SecondAtRejected()
    ensures !AcceptsEmail("a@b@c.co")
  {
    SplitOnce("b", '@', "c.co");
    SplitAtFirst("a", '@', "b@c.co");
    assert "a" + ['@'] + "b@c.co" == "a@b@c.co";
    assert "b" + ['@'] + "c.co" == "b@c.co";
  }

  lemma EmptyLocalRejected()
    ensures !AcceptsEmail("@b.co")
  {
    SplitOnce("", '@', "b.co");
    assert "" + ['@'] + "b.co" == "@b.co";
  }
}
